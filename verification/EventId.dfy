/** packages/kafka/src/inbox/deterministic-event-id.ts: the id of the event a consumer
    prepares, computed from the id of the event it consumed. The hash is any function. */
module EventId {
  type Byte = bv8
  type Hash = string -> seq<Byte>

  /** What is hashed. */
  function Framed(namespace: string, sourceEventId: string): string {
    namespace + [0 as char] + sourceEventId
  }

  function VersionByte(b: Byte): Byte { (b & 0x0f) | 0x50 }

  function VariantByte(b: Byte): Byte { (b & 0x3f) | 0x80 }

  /** The first 16 bytes of the digest with version 5 and the RFC 4122 variant. */
  function Stamped(digest: seq<Byte>): (r: seq<Byte>)
    requires |digest| >= 16
    ensures |r| == 16
  {
    digest[..16][6 := VersionByte(digest[6])][8 := VariantByte(digest[8])]
  }

  function HexChar(n: Byte): char {
    if n == 0 then '0' else if n == 1 then '1' else if n == 2 then '2' else if n == 3 then '3'
    else if n == 4 then '4' else if n == 5 then '5' else if n == 6 then '6' else if n == 7 then '7'
    else if n == 8 then '8' else if n == 9 then '9' else if n == 10 then 'a' else if n == 11 then 'b'
    else if n == 12 then 'c' else if n == 13 then 'd' else if n == 14 then 'e' else 'f'
  }

  /** `bytes.toString("hex")` */
  function Hex(bytes: seq<Byte>): (r: string)
    ensures |r| == 2 * |bytes|
  {
    if bytes == [] then "" else [HexChar(bytes[0] >> 4), HexChar(bytes[0] & 0x0f)] + Hex(bytes[1..])
  }

  /** The five groups of a UUID. */
  function Dashed(hex: string): string
    requires |hex| == 32
  {
    hex[..8] + "-" + hex[8..12] + "-" + hex[12..16] + "-" + hex[16..20] + "-" + hex[20..]
  }

  function Uuid(digest: seq<Byte>): string
    requires |digest| >= 16
  {
    Dashed(Hex(Stamped(digest)))
  }

  ghost predicate Digests(hash: Hash) {
    forall s :: |hash(s)| >= 16
  }

  function EventIdOf(hash: Hash, namespace: string, sourceEventId: string): string
    requires Digests(hash)
  {
    Uuid(hash(Framed(namespace, sourceEventId)))
  }

  /** The source overwrites two bytes of the digest in place. */
  method CreateDeterministicEventId(digest: array<Byte>) returns (id: string)
    requires digest.Length >= 16
    modifies digest
    ensures id == Uuid(old(digest[..]))
    ensures digest[..16] == Stamped(old(digest[..])) && digest[16..] == old(digest[16..])
  {
    digest[6] := (digest[6] & 0x0f) | 0x50;
    digest[8] := (digest[8] & 0x3f) | 0x80;
    var hex := Hex(digest[..16]);
    id := hex[..8] + "-" + hex[8..12] + "-" + hex[12..16] + "-" + hex[16..20] + "-" + hex[20..];
    assert digest[..16] == Stamped(old(digest[..]));
  }

  // ------------------------------------------------------------------------ the format

  lemma {:induction false} HexAt(bytes: seq<Byte>, i: nat)
    requires i < |bytes|
    ensures Hex(bytes)[2 * i] == HexChar(bytes[i] >> 4) && Hex(bytes)[2 * i + 1] == HexChar(bytes[i] & 0x0f)
  {
    if i > 0 {
      HexAt(bytes[1..], i - 1);
    }
  }

  lemma VersionNibble(b: Byte)
    ensures VersionByte(b) >> 4 == 5 && VersionByte(b) & 0x0f == b & 0x0f
  {
  }

  lemma VariantNibble(b: Byte)
    ensures
      || VariantByte(b) >> 4 == 8 || VariantByte(b) >> 4 == 9
      || VariantByte(b) >> 4 == 10 || VariantByte(b) >> 4 == 11
    ensures VariantByte(b) & 0x3f == b & 0x3f
  {
  }

  predicate IsHex(c: char) {
    c in "0123456789abcdef"
  }

  lemma {:induction false} HexIsHex(bytes: seq<Byte>, i: nat)
    requires i < 2 * |bytes|
    ensures IsHex(Hex(bytes)[i])
  {
    if i >= 2 {
      HexIsHex(bytes[1..], i - 2);
    }
  }

  /** Dashes before hex digit `i`. */
  function DashesBefore(i: nat): nat {
    if i < 8 then 0 else if i < 12 then 1 else if i < 16 then 2 else if i < 20 then 3 else 4
  }

  predicate IsDash(i: nat) {
    i == 8 || i == 13 || i == 18 || i == 23
  }

  /** Dashes before position `i` of the id. */
  function Shift(i: nat): nat {
    if i < 9 then 0 else if i < 14 then 1 else if i < 19 then 2 else if i < 24 then 3 else 4
  }

  lemma DashedAt(hex: string, i: nat)
    requires |hex| == 32 && i < 36
    ensures |Dashed(hex)| == 36
    ensures Dashed(hex)[i] == if IsDash(i) then '-' else hex[i - Shift(i)]
  {
  }

  /** Any digest gives a UUID: 36 characters in five groups, version 5, variant 8 to b. */
  lemma IsVersion5Uuid(digest: seq<Byte>)
    requires |digest| >= 16
    ensures var id := Uuid(digest);
      && |id| == 36
      && (forall i :: 0 <= i < 36 ==> if IsDash(i) then id[i] == '-' else IsHex(id[i]))
      && id[14] == '5' && id[19] in "89ab"
  {
    var bytes := Stamped(digest);
    var hex := Hex(bytes);
    DashedAt(hex, 14);
    DashedAt(hex, 19);
    forall i | 0 <= i < 36 ensures if IsDash(i) then Uuid(digest)[i] == '-' else IsHex(Uuid(digest)[i]) {
      DashedAt(hex, i);
      if !IsDash(i) {
        HexIsHex(bytes, i - Shift(i));
      }
    }
    HexAt(bytes, 6);
    HexAt(bytes, 8);
    VersionNibble(digest[6]);
    VariantNibble(digest[8]);
  }

  // --------------------------------------------------------------- equal ids, equal digests

  lemma HexCharInjective(a: Byte, b: Byte)
    requires a < 16 && b < 16 && HexChar(a) == HexChar(b)
    ensures a == b
  {
  }

  lemma NibblesDecide(a: Byte, b: Byte)
    requires HexChar(a >> 4) == HexChar(b >> 4) && HexChar(a & 0x0f) == HexChar(b & 0x0f)
    ensures a == b
  {
    HexCharInjective(a >> 4, b >> 4);
    HexCharInjective(a & 0x0f, b & 0x0f);
    assert a == ((a >> 4) << 4) | (a & 0x0f);
    assert b == ((b >> 4) << 4) | (b & 0x0f);
  }

  lemma HexInjective(a: seq<Byte>, b: seq<Byte>)
    requires |a| == |b| && Hex(a) == Hex(b)
    ensures a == b
  {
    forall i | 0 <= i < |a| ensures a[i] == b[i] {
      HexAt(a, i);
      HexAt(b, i);
      NibblesDecide(a[i], b[i]);
    }
  }

  lemma DashedInjective(a: string, b: string)
    requires |a| == |b| == 32 && Dashed(a) == Dashed(b)
    ensures a == b
  {
    var x, y := Dashed(a), Dashed(b);
    assert |x| == |y| == 36;
    forall i | 0 <= i < 32 ensures a[i] == b[i] {
      DashedAt(a, i + DashesBefore(i));
      DashedAt(b, i + DashesBefore(i));
    }
  }

  /** The digests agree on all but the six bits that version and variant take. */
  ghost predicate AgreeOn122Bits(a: seq<Byte>, b: seq<Byte>)
    requires |a| >= 16 && |b| >= 16
  {
    && (forall i :: 0 <= i < 16 && i != 6 && i != 8 ==> a[i] == b[i])
    && a[6] & 0x0f == b[6] & 0x0f && a[8] & 0x3f == b[8] & 0x3f
  }

  lemma StampKeeps(a: Byte, b: Byte)
    ensures VersionByte(a) == VersionByte(b) <==> a & 0x0f == b & 0x0f
    ensures VariantByte(a) == VariantByte(b) <==> a & 0x3f == b & 0x3f
  {
  }

  lemma SameStampExactlyWhen(a: seq<Byte>, b: seq<Byte>)
    requires |a| >= 16 && |b| >= 16
    ensures Stamped(a) == Stamped(b) <==> AgreeOn122Bits(a, b)
  {
    StampKeeps(a[6], b[6]);
    StampKeeps(a[8], b[8]);
    var x, y := Stamped(a), Stamped(b);
    assert x[6] == VersionByte(a[6]) && y[6] == VersionByte(b[6]);
    assert x[8] == VariantByte(a[8]) && y[8] == VariantByte(b[8]);
    assert forall i :: 0 <= i < 16 && i != 6 && i != 8 ==> x[i] == a[i] && y[i] == b[i];
  }

  lemma SameIdExactlyWhen(a: seq<Byte>, b: seq<Byte>)
    requires |a| >= 16 && |b| >= 16
    ensures Uuid(a) == Uuid(b) <==> AgreeOn122Bits(a, b)
  {
    SameStampExactlyWhen(a, b);
    if Uuid(a) == Uuid(b) {
      DashedInjective(Hex(Stamped(a)), Hex(Stamped(b)));
      HexInjective(Stamped(a), Stamped(b));
    }
  }

  // ------------------------------------------------------------------------- the framing

  const NUL: string := [0 as char]

  /** Two different pairs under these namespaces are hashed as one text. */
  ghost predicate Collide(n: string, m: string) {
    exists s, t :: (n != m || s != t) && Framed(n, s) == Framed(m, t)
  }

  lemma FramedPrefix(n: string, m: string, s: string, t: string)
    requires Framed(n, s) == Framed(m, t) && |n| <= |m|
    ensures n == m ==> s == t
    ensures n != m ==> n + NUL <= m
  {
    var f, g := Framed(n, s), Framed(m, t);
    assert f[..|n|] == n && g[..|m|] == m;
    assert f[|n|] == 0 as char;
    if |n| == |m| {
      assert s == f[|n| + 1..] && t == g[|m| + 1..];
    } else {
      assert m[..|n| + 1] == g[..|n| + 1] == f[..|n| + 1] == n + NUL;
    }
  }

  lemma PrefixCollides(n: string, m: string)
    requires n + NUL <= m
    ensures Framed(n, m[|n| + 1..] + NUL) == Framed(m, "")
  {
    assert m == n + NUL + m[|n| + 1..];
  }

  /** Ids under two namespaces can share a hashed text if and only if one namespace followed by
      NUL begins the other; under one namespace they never do. */
  lemma FramingCollidesExactlyWhen(n: string, m: string)
    ensures Collide(n, m) <==> n != m && (n + NUL <= m || m + NUL <= n)
  {
    if Collide(n, m) {
      var s, t :| (n != m || s != t) && Framed(n, s) == Framed(m, t);
      if |n| <= |m| {
        FramedPrefix(n, m, s, t);
      } else {
        FramedPrefix(m, n, t, s);
      }
    }
    if n + NUL <= m {
      PrefixCollides(n, m);
    }
    if m + NUL <= n {
      PrefixCollides(m, n);
      assert Framed(n, "") == Framed(m, n[|m| + 1..] + NUL);
    }
  }

  /** In particular namespaces without a NUL keep all pairs apart. */
  lemma FramingInjective(namespace: string, sourceEventId: string, namespace': string, sourceEventId': string)
    requires 0 as char !in namespace && 0 as char !in namespace'
    ensures Framed(namespace, sourceEventId) == Framed(namespace', sourceEventId') <==>
            namespace == namespace' && sourceEventId == sourceEventId'
  {
    FramingCollidesExactlyWhen(namespace, namespace');
    NoNulNoPrefix(namespace, namespace');
    NoNulNoPrefix(namespace', namespace);
  }

  lemma NoNulNoPrefix(n: string, m: string)
    requires 0 as char !in m
    ensures !(n + NUL <= m)
  {
    assert (n + NUL)[|n|] == 0 as char;
    if |n| < |m| {
      assert m[|n|] in m;
    }
  }

  /** The other way round: moving a NUL from the source id to the namespace changes nothing. */
  lemma NulInNamespaceCollides(a: string, b: string)
    ensures Framed(a, NUL + b) == Framed(a + NUL, b)
  {
    assert a + NUL + (NUL + b) == (a + NUL) + NUL + b;
  }
}
