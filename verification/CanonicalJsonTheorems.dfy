/** Equal canonical text means equal JSON up to key order, and the converse wherever the
    comparator tells the keys of an object apart. */
module CanonicalJsonTheorems {
  import opened Common
  import opened CanonicalJson

  // ------------------------------------------------------------- strings read back

  lemma Regroup(a: string, b: string, c: string)
    ensures a + b + c == a + (b + c)
  {
  }

  /** Reads one character of a quoted string. */
  function Decode(t: string): Option<(char, string)> {
    if t == "" then None
    else if t[0] != '\\' then Some((t[0], t[1..]))
    else if |t| < 2 then None
    else
      match t[1]
      case '"' => Some(('"', t[2..]))
      case '\\' => Some(('\\', t[2..]))
      case 'b' => Some((8 as char, t[2..]))
      case 't' => Some((9 as char, t[2..]))
      case 'n' => Some((10 as char, t[2..]))
      case 'f' => Some((12 as char, t[2..]))
      case 'r' => Some((13 as char, t[2..]))
      case _ =>
        if |t| < 6 || HexValue(t[4]) > 1 then None
        else Some(((16 * HexValue(t[4]) + HexValue(t[5])) as char, t[6..]))
  }

  function HexValue(c: char): (d: nat)
    ensures d < 17
  {
    if '0' <= c <= '9' then c as int - '0' as int else if 'a' <= c <= 'f' then 10 + c as int - 'a' as int else 16
  }

  lemma HexRoundTrip(d: nat)
    requires d < 16
    ensures HexValue(HexDigit(d)) == d
  {
  }

  lemma EscapeDecodes(c: char, x: string)
    ensures Decode(Escape(c) + x) == Some((c, x)) && Escape(c) != "" && Escape(c)[0] != '"'
  {
    var t := Escape(c) + x;
    assert t[|Escape(c)|..] == x;
    if c as int < 0x20 {
      HexRoundTrip(c as int / 16);
      HexRoundTrip(c as int % 16);
    }
  }

  /** The rest of a quoted string and what follows it. */
  function Closing(a: string, r: string): string {
    EscapeAll(a) + "\"" + r
  }

  lemma ClosingStep(a: string, r: string)
    ensures Closing(a, r) != "" && (Closing(a, r)[0] == '"' <==> a == "")
    ensures a == "" ==> Closing(a, r)[1..] == r
    ensures a != "" ==> Decode(Closing(a, r)) == Some((a[0], Closing(a[1..], r)))
  {
    if a != "" {
      ClosingUnfolds(a, r);
      EscapeDecodes(a[0], Closing(a[1..], r));
    }
  }

  lemma ClosingUnfolds(a: string, r: string)
    requires a != ""
    ensures Closing(a, r) == Escape(a[0]) + Closing(a[1..], r)
  {
    Regroup(Escape(a[0]) + EscapeAll(a[1..]), "\"", r);
    Regroup(Escape(a[0]), EscapeAll(a[1..]), "\"" + r);
    Regroup(EscapeAll(a[1..]), "\"", r);
  }

  /** A quoted string ends at its own closing quote, whatever follows. */
  lemma {:induction false} QuotedInjective(a: string, b: string, r: string, s: string)
    requires Closing(a, r) == Closing(b, s)
    ensures a == b && r == s
  {
    ClosingStep(a, r);
    ClosingStep(b, s);
    if a != "" {
      QuotedInjective(a[1..], b[1..], r, s);
      assert a == [a[0]] + a[1..] && b == [b[0]] + b[1..];
    }
  }

  // ------------------------------------------------------- equal text, alike values

  /** Nothing, or something that ends a value inside an array or an object. */
  ghost predicate Ended(r: string) {
    r == "" || r[0] == ',' || r[0] == ']' || r[0] == '}'
  }

  function Kind(c: char): nat {
    if c == 'n' then 0 else if c == 't' || c == 'f' then 1 else if StartsNumber(c) then 2
    else if c == '"' then 3 else if c == '[' then 4 else if c == '{' then 5 else 6
  }

  function KindOf(v: Json): nat {
    match v
    case JNull => 0
    case JBool(_) => 1
    case JNumber(_) => 2
    case JString(_) => 3
    case JArray(_) => 4
    case JObject(_) => 5
  }

  lemma FirstCharacter(cmp: Comparator, v: Json)
    requires Plain(v)
    ensures StableStringify(cmp, v) != "" && Kind(StableStringify(cmp, v)[0]) == KindOf(v)
  {
    match v
    case JArray(items) => Wrapped("[", JoinedItems(cmp, items), "]");
    case JObject(fields) =>
      SortedDepth(cmp, fields);
      Wrapped("{", JoinedMembers(cmp, Sort(cmp, fields)), "}");
    case JString(text) => Wrapped("\"", EscapeAll(text), "\"");
    case _ =>
  }

  lemma Wrapped(open: string, inner: string, close: string)
    requires |open| == 1
    ensures open + inner + close != "" && (open + inner + close)[0] == open[0]
  {
  }

  lemma NumberInjective(a: string, b: string, r: string, s: string)
    requires IsNumber(a) && IsNumber(b) && Ended(r) && Ended(s) && a + r == b + s
    ensures a == b && r == s
  {
    NumberEnds(a, b, r, s);
    NumberEnds(b, a, s, r);
    var t := a + r;
    assert a == t[..|a|] && b == t[..|b|] && r == t[|a|..] && s == t[|b|..];
  }

  lemma NumberEnds(a: string, b: string, r: string, s: string)
    requires IsNumber(b) && Ended(r) && a + r == b + s
    ensures |a| >= |b|
  {
    var t := a + r;
    assert forall i :: 0 <= i < |b| ==> t[i] == b[i];
    assert r != "" ==> t[|a|] == r[0];
  }

  lemma SameKind(cmp: Comparator, v: Json, w: Json, r: string, s: string)
    requires Plain(v) && Plain(w)
    requires StableStringify(cmp, v) + r == StableStringify(cmp, w) + s
    ensures KindOf(v) == KindOf(w)
  {
    FirstCharacter(cmp, v);
    FirstCharacter(cmp, w);
    var t := StableStringify(cmp, v) + r;
    assert t[0] == StableStringify(cmp, v)[0] == StableStringify(cmp, w)[0];
  }

  lemma ScalarInjective(cmp: Comparator, v: Json, w: Json, r: string, s: string)
    requires Plain(v) && Plain(w) && Ended(r) && Ended(s) && KindOf(v) == KindOf(w) < 4
    requires StableStringify(cmp, v) + r == StableStringify(cmp, w) + s
    ensures v == w && r == s
  {
    var t := StableStringify(cmp, v) + r;
    match v
    case JNull => assert r == t[4..] == s;
    case JBool(b) => BoolInjective(b, w.b, r, s);
    case JNumber(token) => NumberInjective(token, w.token, r, s);
    case JString(text) => StringInjective(text, w.text, r, s);
  }

  function BoolText(b: bool): string { if b then "true" else "false" }

  lemma BoolInjective(a: bool, b: bool, r: string, s: string)
    requires BoolText(a) + r == BoolText(b) + s
    ensures a == b && r == s
  {
    var t := BoolText(a) + r;
    assert t[0] == BoolText(a)[0] == BoolText(b)[0];
    assert r == t[|BoolText(a)|..] == s;
  }

  lemma StringInjective(a: string, b: string, r: string, s: string)
    requires Quote(a) + r == Quote(b) + s
    ensures a == b && r == s
  {
    var t := Quote(a) + r;
    assert t[1..] == Closing(a, r) == Closing(b, s);
    QuotedInjective(a, b, r, s);
  }

  // The text of a list with the bracket that closes it and what follows.

  function ItemsText(cmp: Comparator, xs: seq<Json>, r: string): string
    decreases |xs|, 1
  {
    if xs == [] then "]" + r else StableStringify(cmp, xs[0]) + AfterFirstItem(cmp, xs, r)
  }

  function AfterFirstItem(cmp: Comparator, xs: seq<Json>, r: string): string
    requires xs != []
    decreases |xs|, 0
  {
    if |xs| == 1 then "]" + r else "," + ItemsText(cmp, xs[1..], r)
  }

  function MembersText(cmp: Comparator, xs: seq<Field>, r: string): string
    decreases |xs|, 1
  {
    if xs == [] then "}" + r else Member(cmp, xs[0]) + AfterFirstMember(cmp, xs, r)
  }

  function AfterFirstMember(cmp: Comparator, xs: seq<Field>, r: string): string
    requires xs != []
    decreases |xs|, 0
  {
    if |xs| == 1 then "}" + r else "," + MembersText(cmp, xs[1..], r)
  }

  lemma {:induction false} ItemsTextIs(cmp: Comparator, xs: seq<Json>, r: string)
    ensures JoinedItems(cmp, xs) + ("]" + r) == ItemsText(cmp, xs, r)
    decreases |xs|
  {
    if |xs| > 1 {
      var first, rest := StableStringify(cmp, xs[0]), JoinedItems(cmp, xs[1..]);
      ItemsTextIs(cmp, xs[1..], r);
      assert JoinedItems(cmp, xs) == first + "," + rest;
      Regroup(first + ",", rest, "]" + r);
      Regroup(first, ",", rest + ("]" + r));
    }
  }

  lemma {:induction false} MembersTextIs(cmp: Comparator, xs: seq<Field>, r: string)
    ensures JoinedMembers(cmp, xs) + ("}" + r) == MembersText(cmp, xs, r)
    decreases |xs|
  {
    if |xs| > 1 {
      var first, rest := Member(cmp, xs[0]), JoinedMembers(cmp, xs[1..]);
      MembersTextIs(cmp, xs[1..], r);
      assert JoinedMembers(cmp, xs) == first + "," + rest;
      Regroup(first + ",", rest, "}" + r);
      Regroup(first, ",", rest + ("}" + r));
    }
  }

  lemma ItemsStep(cmp: Comparator, xs: seq<Json>, r: string)
    requires xs != [] ==> Plain(xs[0])
    ensures var t := ItemsText(cmp, xs, r); t != "" && (t[0] == ']' <==> xs == [])
    ensures xs == [] ==> ItemsText(cmp, xs, r)[1..] == r
    ensures xs != [] ==> AfterFirstItem(cmp, xs, r) != "" && Ended(AfterFirstItem(cmp, xs, r))
    ensures xs != [] ==> (AfterFirstItem(cmp, xs, r)[0] == ']' <==> |xs| == 1)
    ensures xs != [] ==> AfterFirstItem(cmp, xs, r)[1..] == if |xs| == 1 then r else ItemsText(cmp, xs[1..], r)
  {
    if xs != [] {
      FirstCharacter(cmp, xs[0]);
    }
  }

  lemma MembersStep(cmp: Comparator, xs: seq<Field>, r: string)
    ensures var t := MembersText(cmp, xs, r); t != "" && (t[0] == '}' <==> xs == [])
    ensures xs == [] ==> MembersText(cmp, xs, r)[1..] == r
    ensures xs != [] ==> AfterFirstMember(cmp, xs, r) != "" && Ended(AfterFirstMember(cmp, xs, r))
    ensures xs != [] ==> (AfterFirstMember(cmp, xs, r)[0] == '}' <==> |xs| == 1)
    ensures xs != [] ==> AfterFirstMember(cmp, xs, r)[1..] == if |xs| == 1 then r else MembersText(cmp, xs[1..], r)
  {
    if xs != [] {
      assert Member(cmp, xs[0])[0] == '"';
    }
  }

  lemma ArrayText(cmp: Comparator, items: seq<Json>, r: string)
    ensures StableStringify(cmp, JArray(items)) + r == "[" + ItemsText(cmp, items, r)
  {
    var inner := JoinedItems(cmp, items);
    ItemsTextIs(cmp, items, r);
    assert "[" + inner + "]" + r == "[" + (inner + ("]" + r));
  }

  lemma ObjectText(cmp: Comparator, fields: seq<Field>, r: string)
    ensures StableStringify(cmp, JObject(fields)) + r == "{" + MembersText(cmp, Sort(cmp, fields), r)
  {
    var inner := JoinedMembers(cmp, Sort(cmp, fields));
    MembersTextIs(cmp, Sort(cmp, fields), r);
    assert "{" + inner + "}" + r == "{" + (inner + ("}" + r));
  }

  lemma MemberStep(cmp: Comparator, f: Field, r: string)
    ensures var t := Member(cmp, f) + r; t != "" && t[1..] == Closing(f.key, ":" + (StableStringify(cmp, f.value) + r))
  {
  }

  lemma SameTail(c: string, a: string, b: string)
    requires c + a == c + b
    ensures a == b
  {
    assert a == (c + a)[|c|..] && b == (c + b)[|c|..];
  }

  /** No value's text is another one's followed by something that could end it. */
  lemma {:induction false} TextInjective(cmp: Comparator, v: Json, w: Json, r: string, s: string)
    requires Plain(v) && Plain(w) && Ended(r) && Ended(s)
    requires StableStringify(cmp, v) + r == StableStringify(cmp, w) + s
    ensures Alike(v, w) && r == s
    decreases Depth(v), 0, 0
  {
    SameKind(cmp, v, w, r, s);
    match v
    case JArray(items) =>
      ArrayText(cmp, items, r);
      ArrayText(cmp, w.items, s);
      SameTail("[", ItemsText(cmp, items, r), ItemsText(cmp, w.items, s));
      ItemsInjective(cmp, items, w.items, r, s);
    case JObject(fields) =>
      ObjectText(cmp, fields, r);
      ObjectText(cmp, w.fields, s);
      SameTail("{", MembersText(cmp, Sort(cmp, fields), r), MembersText(cmp, Sort(cmp, w.fields), s));
      FieldsInjective(cmp, fields, w.fields, r, s);
    case _ =>
      ScalarInjective(cmp, v, w, r, s);
  }

  lemma {:induction false} ItemsInjective(cmp: Comparator, xs: seq<Json>, ys: seq<Json>, r: string, s: string)
    requires forall i :: 0 <= i < |xs| ==> Plain(xs[i])
    requires forall i :: 0 <= i < |ys| ==> Plain(ys[i])
    requires ItemsText(cmp, xs, r) == ItemsText(cmp, ys, s)
    ensures |xs| == |ys| && r == s
    ensures forall i :: 0 <= i < |xs| ==> Alike(xs[i], ys[i])
    decreases ItemsDepth(xs), 1, |xs|
  {
    ItemsStep(cmp, xs, r);
    ItemsStep(cmp, ys, s);
    if xs != [] {
      TextInjective(cmp, xs[0], ys[0], AfterFirstItem(cmp, xs, r), AfterFirstItem(cmp, ys, s));
      if |xs| > 1 {
        ItemsInjective(cmp, xs[1..], ys[1..], r, s);
        forall i | 0 <= i < |xs| ensures Alike(xs[i], ys[i]) {
          assert i > 0 ==> xs[i] == xs[1..][i - 1] && ys[i] == ys[1..][i - 1];
        }
      }
    }
  }

  lemma {:induction false} MemberInjective(cmp: Comparator, f: Field, g: Field, r: string, s: string)
    requires Plain(f.value) && Plain(g.value) && Ended(r) && Ended(s)
    requires Member(cmp, f) + r == Member(cmp, g) + s
    ensures f.key == g.key && Alike(f.value, g.value) && r == s
    decreases Depth(f.value), 1, 0
  {
    MemberStep(cmp, f, r);
    MemberStep(cmp, g, s);
    var p, q := StableStringify(cmp, f.value) + r, StableStringify(cmp, g.value) + s;
    QuotedInjective(f.key, g.key, ":" + p, ":" + q);
    assert p == (":" + p)[1..] && q == (":" + q)[1..];
    TextInjective(cmp, f.value, g.value, r, s);
  }

  lemma {:induction false} MembersInjective(cmp: Comparator, xs: seq<Field>, ys: seq<Field>, r: string, s: string)
    requires AllPlain(xs) && AllPlain(ys)
    requires MembersText(cmp, xs, r) == MembersText(cmp, ys, s)
    ensures InLine(xs, ys) && r == s
    decreases FieldsDepth(xs), 2, |xs|
  {
    MembersStep(cmp, xs, r);
    MembersStep(cmp, ys, s);
    if xs != [] {
      MemberInjective(cmp, xs[0], ys[0], AfterFirstMember(cmp, xs, r), AfterFirstMember(cmp, ys, s));
      if |xs| > 1 {
        MembersInjective(cmp, xs[1..], ys[1..], r, s);
        InLineFrom(xs, ys);
      }
    }
  }

  lemma SortedDepth(cmp: Comparator, fields: seq<Field>)
    ensures FieldsDepth(Sort(cmp, fields)) <= FieldsDepth(fields)
  {
    SortedFields(cmp, fields);
    FieldsDepthBound(fields, Sort(cmp, fields));
  }

  ghost predicate AllPlain(fields: seq<Field>) {
    forall i :: 0 <= i < |fields| ==> Plain(fields[i].value)
  }

  lemma SortedPlain(cmp: Comparator, fields: seq<Field>)
    requires forall f :: f in fields ==> Plain(f.value)
    ensures AllPlain(Sort(cmp, fields))
  {
    SortedFields(cmp, fields);
  }

  /** Position by position. */
  ghost predicate InLine(xs: seq<Field>, ys: seq<Field>) {
    |xs| == |ys| && forall i :: 0 <= i < |xs| ==> xs[i].key == ys[i].key && Alike(xs[i].value, ys[i].value)
  }

  lemma InLineFrom(xs: seq<Field>, ys: seq<Field>)
    requires xs != [] && ys != [] && InLine(xs[1..], ys[1..])
    requires xs[0].key == ys[0].key && Alike(xs[0].value, ys[0].value)
    ensures InLine(xs, ys)
  {
    forall i | 0 <= i < |xs| ensures xs[i].key == ys[i].key && Alike(xs[i].value, ys[i].value) {
      assert i > 0 ==> xs[i] == xs[1..][i - 1] && ys[i] == ys[1..][i - 1];
    }
  }

  /** `f` has a counterpart in `gs`. */
  ghost predicate Has(gs: seq<Field>, f: Field) {
    exists g :: g in gs && g.key == f.key && Alike(f.value, g.value)
  }

  lemma InLineHas(xs: seq<Field>, ys: seq<Field>, f: Field)
    requires InLine(xs, ys) && f in xs
    ensures Has(ys, f)
  {
    var i := IndexIn(xs, f);
    assert ys[i] in ys;
  }

  lemma HasInSorted(cmp: Comparator, gs: seq<Field>, f: Field)
    requires Has(Sort(cmp, gs), f)
    ensures Has(gs, f)
  {
    SortedFields(cmp, gs);
  }

  lemma {:induction false} FieldsInjective(cmp: Comparator, fs: seq<Field>, gs: seq<Field>, r: string, s: string)
    requires forall f :: f in fs ==> Plain(f.value)
    requires forall g :: g in gs ==> Plain(g.value)
    requires MembersText(cmp, Sort(cmp, fs), r) == MembersText(cmp, Sort(cmp, gs), s)
    ensures |fs| == |gs| && r == s
    ensures forall f :: f in fs ==> Has(gs, f)
    decreases FieldsDepth(fs), 3, 0
  {
    var xs, ys := Sort(cmp, fs), Sort(cmp, gs);
    SortedDepth(cmp, fs);
    SortedPlain(cmp, fs);
    SortedPlain(cmp, gs);
    MembersInjective(cmp, xs, ys, r, s);
    SortedFields(cmp, fs);
    assert |ys| == |gs| by { SortedFields(cmp, gs); }
    forall f | f in fs ensures Has(gs, f) {
      InLineHas(xs, ys, f);
      HasInSorted(cmp, gs, f);
    }
  }

  // ------------------------------------------------------- alike values, equal text

  ghost function Keys(fields: seq<Field>): (r: seq<string>)
    ensures |r| == |fields|
    ensures forall i :: 0 <= i < |r| ==> r[i] == fields[i].key
  {
    seq(|fields|, i requires 0 <= i < |fields| => fields[i].key)
  }

  ghost predicate StrictlyOrdered(cmp: Comparator, keys: seq<string>) {
    forall i, j :: 0 <= i < j < |keys| ==> cmp(keys[i], keys[j]) < 0
  }

  lemma LastIsGreatest(cmp: Comparator, a: seq<string>, k: string)
    requires StrictlyOrdered(cmp, a) && k in a
    ensures k == a[|a| - 1] || cmp(k, a[|a| - 1]) < 0
  {
    var i := IndexIn(a, k);
  }

  /** A set of keys has one strict order. */
  lemma {:induction false} OneOrder(cmp: Comparator, a: seq<string>, b: seq<string>)
    requires Signed(cmp) && StrictlyOrdered(cmp, a) && StrictlyOrdered(cmp, b)
    requires |a| == |b| && (forall k :: k in a ==> k in b) && (forall k :: k in b ==> k in a)
    ensures a == b
  {
    if a != [] {
      var n := |a| - 1;
      assert b[n] in b && a[n] in a;
      LastIsGreatest(cmp, a, b[n]);
      LastIsGreatest(cmp, b, a[n]);
      assert a[n] == b[n];
      forall k | k in a[..n] ensures k in b[..n] {
        InitKeys(cmp, a, k);
        InitKeys(cmp, b, k);
      }
      forall k | k in b[..n] ensures k in a[..n] {
        InitKeys(cmp, a, k);
        InitKeys(cmp, b, k);
      }
      OneOrder(cmp, a[..n], b[..n]);
      assert a == a[..n] + [a[n]] && b == b[..n] + [b[n]];
    }
  }

  lemma InitKeys(cmp: Comparator, a: seq<string>, k: string)
    requires Signed(cmp) && StrictlyOrdered(cmp, a) && a != []
    ensures k in a[..|a| - 1] <==> k in a && k != a[|a| - 1]
  {
    assert cmp(k, k) == 0;
    assert a == a[..|a| - 1] + [a[|a| - 1]];
  }

  lemma KeyOf(fields: seq<Field>, k: string) returns (f: Field)
    requires k in Keys(fields)
    ensures f in fields && f.key == k
  {
    var i := IndexIn(Keys(fields), k);
    f := fields[i];
  }

  lemma FieldKey(fields: seq<Field>, f: Field)
    requires f in fields
    ensures f.key in Keys(fields)
  {
    var i := IndexIn(fields, f);
    assert Keys(fields)[i] == f.key;
  }

  lemma Apart(cmp: Comparator, fields: seq<Field>, f: Field, g: Field)
    requires Consistent(cmp) && KeysSeparated(cmp, fields) && f in fields && g in fields && f.key != g.key
    ensures cmp(f.key, g.key) != 0
  {
    var p := IndexIn(fields, f);
    var q := IndexIn(fields, g);
    if q < p {
      assert cmp(fields[q].key, fields[p].key) != 0;
    }
  }

  lemma SortedKeys(cmp: Comparator, fields: seq<Field>)
    requires Consistent(cmp) && DistinctKeys(fields) && KeysSeparated(cmp, fields)
    ensures StrictlyOrdered(cmp, Keys(Sort(cmp, fields)))
  {
    var s := Sort(cmp, fields);
    SortOrdered(cmp, fields);
    SortDistinct(cmp, fields);
    forall i, j | 0 <= i < j < |s| ensures cmp(s[i].key, s[j].key) < 0 {
      assert s[i] in s && s[j] in s;
      assert s[i] in fields && s[j] in fields by { SortedFields(cmp, fields); }
      Apart(cmp, fields, s[i], s[j]);
    }
  }

  lemma SameKeys(a: seq<Field>, b: seq<Field>, k: string)
    requires forall f :: f in a ==> f in b
    requires k in Keys(a)
    ensures k in Keys(b)
  {
    var f := KeyOf(a, k);
    FieldKey(b, f);
  }

  lemma {:induction false} InsertDistinct(cmp: Comparator, s: seq<Field>, f: Field)
    requires DistinctKeys(s) && forall g :: g in s ==> g.key != f.key
    ensures DistinctKeys(Insert(cmp, s, f))
  {
    if s != [] && cmp(s[|s| - 1].key, f.key) > 0 {
      var init, last := s[..|s| - 1], s[|s| - 1];
      InsertDistinct(cmp, init, f);
      forall g | g in Insert(cmp, init, f) ensures g.key != last.key {
        InsertMembers(cmp, init, f, g);
        if g in init {
          var i := IndexIn(init, g);
          assert s[i].key != s[|s| - 1].key;
        }
      }
    }
  }

  lemma {:induction false} SortDistinct(cmp: Comparator, fields: seq<Field>)
    requires DistinctKeys(fields)
    ensures DistinctKeys(Sort(cmp, fields))
  {
    if fields != [] {
      var init, last := fields[..|fields| - 1], fields[|fields| - 1];
      SortDistinct(cmp, init);
      forall g | g in Sort(cmp, init) ensures g.key != last.key {
        assert g in init by { SortedFields(cmp, init); }
        var i := IndexIn(init, g);
        assert fields[i].key != fields[|fields| - 1].key;
      }
      InsertDistinct(cmp, Sort(cmp, init), last);
    }
  }

  /** Fields that are alike as objects. */
  ghost predicate FieldsAlike(fs: seq<Field>, gs: seq<Field>) {
    |fs| == |gs| && forall f :: f in fs ==> Has(gs, f)
  }

  /** They have the same keys: no key of `gs` can be left over. */
  lemma AlikeKeys(fs: seq<Field>, gs: seq<Field>)
    requires FieldsAlike(fs, gs) && DistinctKeys(fs)
    ensures forall k :: k in Keys(fs) ==> k in Keys(gs)
    ensures forall k :: k in Keys(gs) ==> k in Keys(fs)
  {
    forall k | k in Keys(fs) ensures k in Keys(gs) {
      var f := KeyOf(fs, k);
      assert Has(gs, f);
      var g :| g in gs && g.key == f.key && Alike(f.value, g.value);
      FieldKey(gs, g);
    }
    var a, b := Elements(Keys(fs)), Elements(Keys(gs));
    ElementsBound(Keys(fs));
    ElementsBound(Keys(gs));
    assert a <= b;
    SubsetSize(a, b);
    assert |b - a| == |b| - |a| == 0;
    forall k | k in Keys(gs) ensures k in Keys(fs) {
      assert k in b && b - a == {};
    }
  }

  lemma KeysSeparatedToo(cmp: Comparator, fs: seq<Field>, gs: seq<Field>)
    requires Consistent(cmp) && KeysSeparated(cmp, fs) && DistinctKeys(gs)
    requires forall k :: k in Keys(gs) ==> k in Keys(fs)
    ensures KeysSeparated(cmp, gs)
  {
    forall i, j | 0 <= i < j < |gs| ensures cmp(gs[i].key, gs[j].key) != 0 {
      assert Keys(gs)[i] in Keys(fs) && Keys(gs)[j] in Keys(fs);
      var f := KeyOf(fs, gs[i].key);
      var g := KeyOf(fs, gs[j].key);
      Apart(cmp, fs, f, g);
    }
  }

  lemma SortedHaveOneOrder(cmp: Comparator, fs: seq<Field>, gs: seq<Field>)
    requires Consistent(cmp) && DistinctKeys(fs) && DistinctKeys(gs) && KeysSeparated(cmp, fs) && FieldsAlike(fs, gs)
    ensures Keys(Sort(cmp, fs)) == Keys(Sort(cmp, gs))
  {
    var xs, ys := Sort(cmp, fs), Sort(cmp, gs);
    AlikeKeys(fs, gs);
    KeysSeparatedToo(cmp, fs, gs);
    SortedKeys(cmp, fs);
    SortedKeys(cmp, gs);
    SortedFields(cmp, fs);
    SortedFields(cmp, gs);
    forall k | k in Keys(xs) ensures k in Keys(ys) {
      SameKeys(xs, fs, k);
      SameKeys(gs, ys, k);
    }
    forall k | k in Keys(ys) ensures k in Keys(xs) {
      SameKeys(ys, gs, k);
      SameKeys(fs, xs, k);
    }
    OneOrder(cmp, Keys(xs), Keys(ys));
  }

  /** Sorting alike objects lines their fields up. */
  lemma SortedAlike(cmp: Comparator, fs: seq<Field>, gs: seq<Field>)
    requires Consistent(cmp) && DistinctKeys(fs) && DistinctKeys(gs) && KeysSeparated(cmp, fs) && FieldsAlike(fs, gs)
    ensures InLine(Sort(cmp, fs), Sort(cmp, gs))
  {
    var xs, ys := Sort(cmp, fs), Sort(cmp, gs);
    SortedHaveOneOrder(cmp, fs, gs);
    assert |xs| == |Keys(xs)| == |Keys(ys)| == |ys|;
    forall i | 0 <= i < |xs| ensures xs[i].key == ys[i].key && Alike(xs[i].value, ys[i].value) {
      assert Keys(xs)[i] == Keys(ys)[i];
      assert xs[i] in xs && ys[i] in ys;
      assert xs[i] in fs by { SortedFields(cmp, fs); }
      assert ys[i] in gs by { SortedFields(cmp, gs); }
      assert Has(gs, xs[i]);
      var g :| g in gs && g.key == xs[i].key && Alike(xs[i].value, g.value);
      OneField(gs, g, ys[i]);
    }
  }

  lemma OneField(fields: seq<Field>, f: Field, g: Field)
    requires DistinctKeys(fields) && f in fields && g in fields && f.key == g.key
    ensures f == g
  {
  }

  ghost predicate AllSeparated(cmp: Comparator, fields: seq<Field>) {
    forall i :: 0 <= i < |fields| ==> Separated(cmp, fields[i].value)
  }

  lemma SortedSeparated(cmp: Comparator, fields: seq<Field>)
    requires forall f :: f in fields ==> Separated(cmp, f.value)
    ensures AllSeparated(cmp, Sort(cmp, fields))
  {
    SortedFields(cmp, fields);
  }

  lemma {:induction false} AlikeHaveOneText(cmp: Comparator, v: Json, w: Json)
    requires Consistent(cmp) && Plain(v) && Plain(w) && Separated(cmp, v) && Alike(v, w)
    ensures StableStringify(cmp, v) == StableStringify(cmp, w)
    decreases Depth(v), 0, 0
  {
    match v
    case JArray(items) => ItemsHaveOneText(cmp, items, w.items);
    case JObject(fields) => FieldsHaveOneText(cmp, fields, w.fields);
    case _ =>
  }

  lemma {:induction false} FieldsHaveOneText(cmp: Comparator, fs: seq<Field>, gs: seq<Field>)
    requires Consistent(cmp) && DistinctKeys(fs) && DistinctKeys(gs) && KeysSeparated(cmp, fs) && FieldsAlike(fs, gs)
    requires forall f :: f in fs ==> Plain(f.value)
    requires forall g :: g in gs ==> Plain(g.value)
    requires forall f :: f in fs ==> Separated(cmp, f.value)
    ensures JoinedMembers(cmp, Sort(cmp, fs)) == JoinedMembers(cmp, Sort(cmp, gs))
    decreases FieldsDepth(fs), 2, 0
  {
    SortedAlike(cmp, fs, gs);
    SortedDepth(cmp, fs);
    SortedPlain(cmp, fs);
    SortedPlain(cmp, gs);
    SortedSeparated(cmp, fs);
    MembersHaveOneText(cmp, Sort(cmp, fs), Sort(cmp, gs));
  }

  lemma {:induction false} ItemsHaveOneText(cmp: Comparator, xs: seq<Json>, ys: seq<Json>)
    requires Consistent(cmp) && |xs| == |ys|
    requires forall i :: 0 <= i < |xs| ==> Plain(xs[i]) && Plain(ys[i]) && Separated(cmp, xs[i]) && Alike(xs[i], ys[i])
    ensures JoinedItems(cmp, xs) == JoinedItems(cmp, ys)
    decreases ItemsDepth(xs), 1, |xs|
  {
    if xs != [] {
      AlikeHaveOneText(cmp, xs[0], ys[0]);
      ItemsHaveOneText(cmp, xs[1..], ys[1..]);
    }
  }

  lemma {:induction false} MembersHaveOneText(cmp: Comparator, xs: seq<Field>, ys: seq<Field>)
    requires Consistent(cmp) && AllPlain(xs) && AllPlain(ys) && AllSeparated(cmp, xs) && InLine(xs, ys)
    ensures JoinedMembers(cmp, xs) == JoinedMembers(cmp, ys)
    decreases FieldsDepth(xs), 1, |xs|
  {
    if xs != [] {
      AlikeHaveOneText(cmp, xs[0].value, ys[0].value);
      MembersHaveOneText(cmp, xs[1..], ys[1..]);
    }
  }

  /** Two values have the same canonical text if and only if they are equal up to the
      order of object keys. */
  lemma CanonicalTextDecides(cmp: Comparator, v: Json, w: Json)
    requires Consistent(cmp) && Plain(v) && Plain(w) && Separated(cmp, v)
    ensures StableStringify(cmp, v) == StableStringify(cmp, w) <==> Alike(v, w)
  {
    if Alike(v, w) {
      AlikeHaveOneText(cmp, v, w);
    }
    if StableStringify(cmp, v) == StableStringify(cmp, w) {
      assert StableStringify(cmp, v) + "" == StableStringify(cmp, w) + "";
      TextInjective(cmp, v, w, "", "");
    }
  }

  // --------------------------------------------------------------- keys that tie

  /** Some `a` stands before some `b`. */
  ghost predicate Before(s: seq<Field>, a: Field, b: Field) {
    exists i, j :: Places(s, i, j, a, b)
  }

  ghost predicate Places(s: seq<Field>, i: int, j: int, a: Field, b: Field) {
    0 <= i < j < |s| && s[i] == a && s[j] == b
  }

  lemma BeforeExtends(s: seq<Field>, last: Field, a: Field, b: Field)
    requires Before(s, a, b)
    ensures Before(s + [last], a, b)
  {
    var p, q :| Places(s, p, q, a, b);
    assert Places(s + [last], p, q, a, b);
  }

  lemma BeforeLast(s: seq<Field>, last: Field, a: Field)
    requires a in s
    ensures Before(s + [last], a, last)
  {
    var p := IndexIn(s, a);
    assert Places(s + [last], p, |s|, a, last);
  }

  lemma InsertKeeps(cmp: Comparator, s: seq<Field>, f: Field, a: Field)
    requires a in s
    ensures a in Insert(cmp, s, f)
  {
    InsertPermutes(cmp, s, f);
    assert a in multiset(Insert(cmp, s, f));
  }

  lemma {:induction false} InsertKeepsOrder(cmp: Comparator, s: seq<Field>, f: Field, a: Field, b: Field)
    requires Before(s, a, b)
    ensures Before(Insert(cmp, s, f), a, b)
  {
    var p, q :| Places(s, p, q, a, b);
    var n := |s| - 1;
    if cmp(s[n].key, f.key) <= 0 {
      BeforeExtends(s, f, a, b);
    } else if q < n {
      assert Places(s[..n], p, q, a, b);
      InsertKeepsOrder(cmp, s[..n], f, a, b);
      BeforeExtends(Insert(cmp, s[..n], f), s[n], a, b);
    } else {
      assert s[..n][p] == a;
      InsertKeeps(cmp, s[..n], f, a);
      BeforeLast(Insert(cmp, s[..n], f), s[n], a);
    }
  }

  lemma {:induction false} InsertGoesBehind(cmp: Comparator, s: seq<Field>, f: Field, a: Field)
    requires a in s && cmp(a.key, f.key) <= 0
    ensures Before(Insert(cmp, s, f), a, f)
  {
    var n := |s| - 1;
    if cmp(s[n].key, f.key) <= 0 {
      BeforeLast(s, f, a);
    } else {
      assert s == s[..n] + [s[n]];
      InsertGoesBehind(cmp, s[..n], f, a);
      BeforeExtends(Insert(cmp, s[..n], f), s[n], a, f);
    }
  }

  /** The sort is stable. */
  lemma {:induction false} SortIsStable(cmp: Comparator, fields: seq<Field>, i: nat, j: nat)
    requires i < j < |fields| && cmp(fields[i].key, fields[j].key) == 0
    ensures Before(Sort(cmp, fields), fields[i], fields[j])
  {
    var n := |fields| - 1;
    var init := fields[..n];
    if j < n {
      SortIsStable(cmp, init, i, j);
      InsertKeepsOrder(cmp, Sort(cmp, init), fields[n], fields[i], fields[j]);
    } else {
      assert init[i] in Sort(cmp, init) by { SortedFields(cmp, init); }
      InsertGoesBehind(cmp, Sort(cmp, init), fields[n], fields[i]);
    }
  }

  ghost predicate SameText(cmp: Comparator, fields: seq<Field>, other: seq<Field>) {
    StableStringify(cmp, JObject(other)) == StableStringify(cmp, JObject(fields))
  }

  /** No value that differs from `v` in the order of object keys alone, at whatever depth, has
      another text. */
  ghost predicate IgnoresKeyOrder(cmp: Comparator, v: Json) {
    forall w :: Plain(w) && Alike(v, w) ==> StableStringify(cmp, w) == StableStringify(cmp, v)
  }

  /** The order of the keys in a request leaves the text alone exactly if the comparator tells
      the keys of every object in it apart; `localeCompare` does not for canonically equivalent
      ones. */
  lemma KeyOrderIsIgnoredExactlyWhen(cmp: Comparator, v: Json)
    requires Consistent(cmp) && Plain(v)
    ensures IgnoresKeyOrder(cmp, v) <==> Separated(cmp, v)
  {
    if Separated(cmp, v) {
      forall w | Plain(w) && Alike(v, w) ensures StableStringify(cmp, w) == StableStringify(cmp, v) {
        AlikeHaveOneText(cmp, v, w);
      }
    }
    if IgnoresKeyOrder(cmp, v) {
      IgnoredOnlyIf(cmp, v);
    }
  }

  lemma {:induction false} IgnoredOnlyIf(cmp: Comparator, v: Json)
    requires Signed(cmp) && Plain(v) && IgnoresKeyOrder(cmp, v)
    ensures Separated(cmp, v)
    decreases Depth(v)
  {
    match v
    case JArray(items) =>
      forall i | 0 <= i < |items| ensures Separated(cmp, items[i]) {
        ItemDepth(items, i);
        ItemIgnores(cmp, items, i);
        IgnoredOnlyIf(cmp, items[i]);
      }
    case JObject(fields) =>
      KeysIgnored(cmp, fields);
      forall f | f in fields ensures Separated(cmp, f.value) {
        FieldDepth(fields, f);
        var k := IndexIn(fields, f);
        FieldIgnores(cmp, fields, k);
        IgnoredOnlyIf(cmp, f.value);
      }
    case _ =>
  }

  /** What shows in the text of an item shows in the text of the array. */
  lemma ItemIgnores(cmp: Comparator, items: seq<Json>, i: nat)
    requires Plain(JArray(items)) && IgnoresKeyOrder(cmp, JArray(items)) && i < |items|
    ensures IgnoresKeyOrder(cmp, items[i])
  {
    forall w | Plain(w) && Alike(items[i], w) ensures StableStringify(cmp, w) == StableStringify(cmp, items[i]) {
      var other := items[i := w];
      ReplacedItemIsAlike(items, i, w);
      assert StableStringify(cmp, JArray(other)) == StableStringify(cmp, JArray(items));
      ArrayText(cmp, items, "");
      ArrayText(cmp, other, "");
      SameTail("[", ItemsText(cmp, items, ""), ItemsText(cmp, other, ""));
      SameItemTexts(cmp, items, other, "", "");
    }
  }

  lemma ReplacedItemIsAlike(items: seq<Json>, i: nat, w: Json)
    requires Plain(JArray(items)) && i < |items| && Plain(w) && Alike(items[i], w)
    ensures Plain(JArray(items[i := w])) && Alike(JArray(items), JArray(items[i := w]))
  {
    forall k | 0 <= k < |items| ensures Alike(items[k], items[i := w][k]) {
      AlikeItself(items[k]);
    }
  }

  lemma {:induction false} SameItemTexts(cmp: Comparator, xs: seq<Json>, ys: seq<Json>, r: string, s: string)
    requires forall i :: 0 <= i < |xs| ==> Plain(xs[i])
    requires forall i :: 0 <= i < |ys| ==> Plain(ys[i])
    requires ItemsText(cmp, xs, r) == ItemsText(cmp, ys, s)
    ensures |xs| == |ys|
    ensures forall i :: 0 <= i < |xs| ==> StableStringify(cmp, xs[i]) == StableStringify(cmp, ys[i])
    decreases |xs|
  {
    ItemsInjective(cmp, xs, ys, r, s);
    if xs != [] {
      ItemsStep(cmp, xs, r);
      ItemsStep(cmp, ys, s);
      var p, q := AfterFirstItem(cmp, xs, r), AfterFirstItem(cmp, ys, s);
      TextInjective(cmp, xs[0], ys[0], p, q);
      SameHead(StableStringify(cmp, xs[0]), StableStringify(cmp, ys[0]), p);
      if |xs| > 1 {
        SameItemTexts(cmp, xs[1..], ys[1..], r, s);
        forall i | 0 <= i < |xs| ensures StableStringify(cmp, xs[i]) == StableStringify(cmp, ys[i]) {
          assert i > 0 ==> xs[i] == xs[1..][i - 1] && ys[i] == ys[1..][i - 1];
        }
      }
    }
  }

  lemma SameHead(a: string, b: string, c: string)
    requires a + c == b + c
    ensures a == b
  {
    assert |a + c| == |b + c|;
    assert a == (a + c)[..|a|] && b == (b + c)[..|b|];
  }

  /** What shows in the text of a field's value shows in the text of the object. */
  lemma FieldIgnores(cmp: Comparator, fields: seq<Field>, k: nat)
    requires Plain(JObject(fields)) && IgnoresKeyOrder(cmp, JObject(fields)) && k < |fields|
    ensures IgnoresKeyOrder(cmp, fields[k].value)
  {
    forall w | Plain(w) && Alike(fields[k].value, w)
      ensures StableStringify(cmp, w) == StableStringify(cmp, fields[k].value)
    {
      var other := fields[k := Field(fields[k].key, w)];
      ReplacedFieldIsAlike(fields, k, w);
      assert SameText(cmp, fields, other);
      SameTextSorted(cmp, fields, other);
      SameTextOfKey(cmp, fields, other, k);
    }
  }

  lemma ReplacedFieldIsAlike(fields: seq<Field>, k: nat, w: Json)
    requires Plain(JObject(fields)) && k < |fields| && Plain(w) && Alike(fields[k].value, w)
    ensures var other := fields[k := Field(fields[k].key, w)];
      Plain(JObject(other)) && Alike(JObject(fields), JObject(other))
  {
    var other := fields[k := Field(fields[k].key, w)];
    forall f | f in fields ensures Has(other, f) {
      var i := IndexIn(fields, f);
      AlikeItself(f.value);
      assert other[i] in other && other[i].key == f.key;
    }
    forall f | f in other ensures Plain(f.value) {
      var i := IndexIn(other, f);
      assert fields[i] in fields;
    }
  }

  /** Position by position, the same key and the same text. */
  ghost predicate PrintAlike(cmp: Comparator, xs: seq<Field>, ys: seq<Field>) {
    && |xs| == |ys|
    && forall i :: 0 <= i < |xs| ==>
         xs[i].key == ys[i].key && StableStringify(cmp, xs[i].value) == StableStringify(cmp, ys[i].value)
  }

  lemma SameTextOfKey(cmp: Comparator, fields: seq<Field>, other: seq<Field>, k: nat)
    requires DistinctKeys(other) && k < |fields| && k < |other| && fields[k].key == other[k].key
    requires PrintAlike(cmp, Sort(cmp, fields), Sort(cmp, other))
    ensures StableStringify(cmp, fields[k].value) == StableStringify(cmp, other[k].value)
  {
    var xs, ys := Sort(cmp, fields), Sort(cmp, other);
    assert fields[k] in xs by { SortedFields(cmp, fields); }
    assert other[k] in ys by { SortedFields(cmp, other); }
    var p := IndexIn(xs, fields[k]);
    SortDistinct(cmp, other);
    OneField(ys, ys[p], other[k]);
  }

  lemma SameTextSorted(cmp: Comparator, fields: seq<Field>, other: seq<Field>)
    requires SameText(cmp, fields, other)
    requires forall f :: f in fields ==> Plain(f.value)
    requires forall f :: f in other ==> Plain(f.value)
    ensures PrintAlike(cmp, Sort(cmp, fields), Sort(cmp, other))
  {
    var xs, ys := Sort(cmp, fields), Sort(cmp, other);
    ObjectText(cmp, fields, "");
    ObjectText(cmp, other, "");
    SameTail("{", MembersText(cmp, xs, ""), MembersText(cmp, ys, ""));
    SortedPlain(cmp, fields);
    SortedPlain(cmp, other);
    SameMemberTexts(cmp, xs, ys, "", "");
  }

  lemma {:induction false} SameMemberTexts(cmp: Comparator, xs: seq<Field>, ys: seq<Field>, r: string, s: string)
    requires AllPlain(xs) && AllPlain(ys)
    requires MembersText(cmp, xs, r) == MembersText(cmp, ys, s)
    ensures PrintAlike(cmp, xs, ys)
    decreases |xs|
  {
    MembersInjective(cmp, xs, ys, r, s);
    if xs != [] {
      MembersStep(cmp, xs, r);
      MembersStep(cmp, ys, s);
      var p, q := AfterFirstMember(cmp, xs, r), AfterFirstMember(cmp, ys, s);
      MemberInjective(cmp, xs[0], ys[0], p, q);
      SameHead(Member(cmp, xs[0]), Member(cmp, ys[0]), p);
      SameTail(Quote(xs[0].key) + ":", StableStringify(cmp, xs[0].value), StableStringify(cmp, ys[0].value));
      if |xs| > 1 {
        SameMemberTexts(cmp, xs[1..], ys[1..], r, s);
        PrintAlikeFrom(cmp, xs, ys);
      }
    }
  }

  lemma PrintAlikeFrom(cmp: Comparator, xs: seq<Field>, ys: seq<Field>)
    requires xs != [] && ys != [] && PrintAlike(cmp, xs[1..], ys[1..])
    requires xs[0].key == ys[0].key && StableStringify(cmp, xs[0].value) == StableStringify(cmp, ys[0].value)
    ensures PrintAlike(cmp, xs, ys)
  {
    forall i | 0 <= i < |xs|
      ensures xs[i].key == ys[i].key && StableStringify(cmp, xs[i].value) == StableStringify(cmp, ys[i].value)
    {
      assert i > 0 ==> xs[i] == xs[1..][i - 1] && ys[i] == ys[1..][i - 1];
    }
  }

  lemma KeysIgnored(cmp: Comparator, fields: seq<Field>)
    requires Signed(cmp) && Plain(JObject(fields)) && IgnoresKeyOrder(cmp, JObject(fields))
    ensures KeysSeparated(cmp, fields)
  {
    forall i, j | 0 <= i < j < |fields| ensures cmp(fields[i].key, fields[j].key) != 0 {
      var other := fields[i := fields[j]][j := fields[i]];
      SwapPermutes(fields, i, j);
      ReorderedIsAlike(fields, other);
      assert SameText(cmp, fields, other);
      if cmp(fields[i].key, fields[j].key) == 0 {
        SwappedPrintsDifferently(cmp, fields, i, j);
      }
    }
  }

  /** Every order of one object's own keys has the same text exactly if the comparator tells
      them apart, whatever the objects inside it look like. */
  lemma OwnKeyOrderIsIgnoredExactlyWhen(cmp: Comparator, fields: seq<Field>)
    requires Consistent(cmp) && Plain(JObject(fields))
    ensures KeysSeparated(cmp, fields)
      <==> forall other :: multiset(other) == multiset(fields) ==> SameText(cmp, fields, other)
  {
    if KeysSeparated(cmp, fields) {
      forall other | multiset(other) == multiset(fields) ensures SameText(cmp, fields, other) {
        OneSorting(cmp, fields, other);
      }
    } else {
      var i, j :| 0 <= i < j < |fields| && cmp(fields[i].key, fields[j].key) == 0;
      SwapPermutes(fields, i, j);
      SwappedPrintsDifferently(cmp, fields, i, j);
    }
  }

  lemma OneSorting(cmp: Comparator, fields: seq<Field>, other: seq<Field>)
    requires Consistent(cmp) && Plain(JObject(fields)) && KeysSeparated(cmp, fields)
    requires multiset(other) == multiset(fields)
    ensures Sort(cmp, other) == Sort(cmp, fields)
  {
    var xs, ys := Sort(cmp, fields), Sort(cmp, other);
    ReorderedIsAlike(fields, other);
    assert FieldsAlike(fields, other) by {
      forall f | f in fields ensures Has(other, f) {
      }
    }
    SortedHaveOneOrder(cmp, fields, other);
    SameElements(other, fields);
    assert |xs| == |Keys(xs)| == |Keys(ys)| == |ys|;
    forall i | 0 <= i < |xs| ensures xs[i] == ys[i] {
      assert Keys(xs)[i] == Keys(ys)[i];
      assert xs[i] in xs && ys[i] in ys;
      assert xs[i] in fields by { SortedFields(cmp, fields); }
      assert ys[i] in other by { SortedFields(cmp, other); }
      OneField(fields, xs[i], ys[i]);
    }
  }

  lemma SwapPermutes(fields: seq<Field>, i: nat, j: nat)
    requires i < j < |fields|
    ensures multiset(fields[i := fields[j]][j := fields[i]]) == multiset(fields)
  {
  }

  lemma {:induction false} AlikeItself(v: Json)
    ensures Alike(v, v)
    decreases Depth(v)
  {
    match v
    case JArray(items) =>
      forall i | 0 <= i < |items| ensures Alike(items[i], items[i]) {
        ItemDepth(items, i);
        AlikeItself(items[i]);
      }
    case JObject(fields) =>
      forall f | f in fields ensures Alike(f.value, f.value) {
        FieldDepth(fields, f);
        AlikeItself(f.value);
      }
    case _ =>
  }

  lemma ReorderedDistinct(a: seq<Field>, b: seq<Field>)
    requires multiset(a) == multiset(b) && DistinctKeys(a)
    ensures DistinctKeys(b)
  {
    forall i, j | 0 <= i < j < |b| ensures b[i].key != b[j].key {
      if b[i].key == b[j].key {
        assert b[i] in multiset(a) && b[j] in multiset(a);
        OneField(a, b[i], b[j]);
        TwiceIn(b, i, j);
        OnceIn(a, b[i]);
      }
    }
  }

  lemma TwiceIn(s: seq<Field>, i: nat, j: nat)
    requires i < j < |s| && s[i] == s[j]
    ensures multiset(s)[s[i]] >= 2
  {
    assert s == s[..j] + s[j..];
    assert s[..j][i] == s[i] && s[j..][0] == s[j];
    assert multiset(s) == multiset(s[..j]) + multiset(s[j..]);
    assert s[i] in multiset(s[..j]) && s[j] in multiset(s[j..]);
  }

  lemma {:induction false} OnceIn(s: seq<Field>, f: Field)
    requires DistinctKeys(s)
    ensures multiset(s)[f] <= 1
  {
    if s != [] {
      var init, last := s[..|s| - 1], s[|s| - 1];
      OnceIn(init, f);
      assert s == init + [last];
      LastIsNew(s);
    }
  }

  lemma LastIsNew(s: seq<Field>)
    requires DistinctKeys(s) && s != []
    ensures s[|s| - 1] !in s[..|s| - 1]
  {
    var init, last := s[..|s| - 1], s[|s| - 1];
    forall i | 0 <= i < |init| ensures init[i] != last {
      assert s[i].key != last.key;
    }
  }

  lemma ReorderedIsAlike(fields: seq<Field>, other: seq<Field>)
    requires multiset(other) == multiset(fields) && Plain(JObject(fields))
    ensures Alike(JObject(fields), JObject(other)) && Plain(JObject(other))
  {
    SameElements(other, fields);
    ReorderedDistinct(fields, other);
    forall f | f in fields ensures Has(other, f) {
      AlikeItself(f.value);
      assert f in other;
    }
  }

  lemma SwappedPrintsDifferently(cmp: Comparator, fields: seq<Field>, i: nat, j: nat)
    requires Plain(JObject(fields)) && i < j < |fields| && cmp(fields[i].key, fields[j].key) == 0
    requires cmp(fields[j].key, fields[i].key) == 0
    ensures !SameText(cmp, fields, fields[i := fields[j]][j := fields[i]])
  {
    var other := fields[i := fields[j]][j := fields[i]];
    var xs, ys := Sort(cmp, fields), Sort(cmp, other);
    SortIsStable(cmp, fields, i, j);
    SortIsStable(cmp, other, i, j);
    SortDistinct(cmp, fields);
    if SameText(cmp, fields, other) {
      SameTextInLine(cmp, fields, other);
      OrderInLine(xs, ys, fields[i], fields[j]);
    }
  }

  lemma OrderInLine(xs: seq<Field>, ys: seq<Field>, a: Field, b: Field)
    requires InLine(xs, ys) && DistinctKeys(xs) && Before(xs, a, b)
    ensures !Before(ys, b, a)
  {
    var p, q :| Places(xs, p, q, a, b);
    forall u, v ensures !Places(ys, u, v, b, a) {
      if 0 <= u < |ys| && ys[u] == b {
        OnePlace(xs, u, q);
      }
      if 0 <= v < |ys| && ys[v] == a {
        OnePlace(xs, v, p);
      }
    }
  }

  lemma OnePlace(fields: seq<Field>, i: nat, j: nat)
    requires DistinctKeys(fields) && i < |fields| && j < |fields| && fields[i].key == fields[j].key
    ensures i == j
  {
  }

  lemma SameTextInLine(cmp: Comparator, fields: seq<Field>, other: seq<Field>)
    requires SameText(cmp, fields, other)
    requires forall f :: f in fields ==> Plain(f.value)
    requires forall f :: f in other ==> Plain(f.value)
    ensures InLine(Sort(cmp, fields), Sort(cmp, other))
  {
    var xs, ys := Sort(cmp, fields), Sort(cmp, other);
    ObjectText(cmp, fields, "");
    ObjectText(cmp, other, "");
    SameTail("{", MembersText(cmp, xs, ""), MembersText(cmp, ys, ""));
    SortedPlain(cmp, fields);
    SortedPlain(cmp, other);
    MembersInjective(cmp, xs, ys, "", "");
  }
}
