/** The assumptions can be met: a metadata codec and an end-record packing, written out, with the sizes they need. */
module Codecs {
  import opened Prelude
  import opened Wire
  import opened Core
  import opened Stream
  import opened Sender
  import opened Protocol
  import opened Budget

  // ---- Packings that say where they end ----

  function PackBytes(b: bytes): bytes {
    if b == [] then [0] else [1, b[0]] + PackBytes(b[1..])
  }

  function PackNat(n: nat): bytes {
    if n == 0 then [0] else [1, (n % 0x100) as u8] + PackNat(n / 0x100)
  }

  function PackChar(c: char): bytes {
    var n := c as int;
    [(n / 0x1_0000) as u8, (n / 0x100 % 0x100) as u8, (n % 0x100) as u8]
  }

  function PackString(s: string): bytes {
    if s == "" then [0] else [1] + PackChar(s[0]) + PackString(s[1..])
  }

  ghost function Pick<V>(m: map<string, V>): (k: string)
    requires m != map[]
    ensures k in m
  {
    var k :| k in m;
    k
  }

  /** The entries of a map, in whatever order they are picked. */
  ghost function PackMap<V>(packValue: V -> bytes, m: map<string, V>): bytes
    decreases |m|
  {
    if m == map[] then
      [0]
    else
      var k := Pick(m);
      [1] + PackString(k) + packValue(m[k]) + PackMap(packValue, m - {k})
  }

  ghost function PackMetadata(m: Metadata): bytes {
    PackMap(PackString, m.http) + PackMap(PackString, m.vhttp) + PackMap(PackBytes, m.extensions)
  }

  function PackEnd(e: StreamEnd): bytes {
    [if e.direction == Request then 0 else 1] + PackNat(e.logicalLength) + PackBytes(e.digest)
  }

  // ---- Nothing is packed like anything else ----

  /** Two packings at the front of the same bytes are of the same value. */
  ghost predicate Separates<V(!new)>(pack: V -> bytes) {
    forall a, b, x, y :: Apart(pack, a, b, x, y)
  }

  ghost predicate Apart<V(!new)>(pack: V -> bytes, a: V, b: V, x: bytes, y: bytes) {
    pack(a) + x == pack(b) + y ==> a == b && x == y
  }

  lemma Grouped(a: bytes, b: bytes, c: bytes)
    ensures a + b + c == a + (b + c)
  {
  }

  lemma Tail(a: bytes, b: bytes, x: bytes, y: bytes)
    requires |a| == |b| && a + x == b + y
    ensures a == b && x == y
  {
    assert a == (a + x)[..|a|] && x == (a + x)[|a|..];
    assert b == (b + y)[..|b|] && y == (b + y)[|b|..];
  }

  lemma {:induction false} BytesSeparate(a: bytes, b: bytes, x: bytes, y: bytes)
    requires PackBytes(a) + x == PackBytes(b) + y
    ensures a == b && x == y
  {
    assert (PackBytes(a) + x)[0] == PackBytes(a)[0] && (PackBytes(b) + y)[0] == PackBytes(b)[0];
    if a == [] {
      Tail([0], [0], x, y);
    } else {
      var a', b' := PackBytes(a[1..]) + x, PackBytes(b[1..]) + y;
      assert PackBytes(a) + x == [1, a[0]] + a' && PackBytes(b) + y == [1, b[0]] + b';
      Tail([1, a[0]], [1, b[0]], a', b');
      assert [1, a[0]][1] == [1, b[0]][1];
      BytesSeparate(a[1..], b[1..], x, y);
      assert a == [a[0]] + a[1..] && b == [b[0]] + b[1..];
    }
  }

  lemma {:induction false} NatsSeparate(a: nat, b: nat, x: bytes, y: bytes)
    requires PackNat(a) + x == PackNat(b) + y
    ensures a == b && x == y
  {
    assert (PackNat(a) + x)[0] == PackNat(a)[0] && (PackNat(b) + y)[0] == PackNat(b)[0];
    if a == 0 {
      Tail([0], [0], x, y);
    } else {
      var p, q := [1, (a % 0x100) as u8], [1, (b % 0x100) as u8];
      var a', b' := PackNat(a / 0x100) + x, PackNat(b / 0x100) + y;
      assert PackNat(a) + x == p + a' && PackNat(b) + y == q + b';
      Tail(p, q, a', b');
      assert p[1] == q[1];
      NatsSeparate(a / 0x100, b / 0x100, x, y);
    }
  }

  lemma CharsDiffer(c: char, d: char)
    requires PackChar(c) == PackChar(d)
    ensures c == d
  {
    var p, q := PackChar(c), PackChar(d);
    assert p[0] == q[0] && p[1] == q[1] && p[2] == q[2];
    assert c as int == d as int;
  }

  lemma {:induction false} StringsSeparate(a: string, b: string, x: bytes, y: bytes)
    requires PackString(a) + x == PackString(b) + y
    ensures a == b && x == y
  {
    assert (PackString(a) + x)[0] == PackString(a)[0] && (PackString(b) + y)[0] == PackString(b)[0];
    if a == "" {
      Tail([0], [0], x, y);
    } else {
      var a', b' := PackString(a[1..]) + x, PackString(b[1..]) + y;
      assert PackString(a) + x == [1] + PackChar(a[0]) + a' && PackString(b) + y == [1] + PackChar(b[0]) + b';
      Tail([1] + PackChar(a[0]), [1] + PackChar(b[0]), a', b');
      Tail([1], [1], PackChar(a[0]), PackChar(b[0]));
      CharsDiffer(a[0], b[0]);
      StringsSeparate(a[1..], b[1..], x, y);
      assert a == [a[0]] + a[1..] && b == [b[0]] + b[1..];
    }
  }

  lemma ByEntries<V>(m: map<string, V>, n: map<string, V>, k: string)
    requires k in m && k in n && m[k] == n[k] && m - {k} == n - {k}
    ensures m == n
  {
    forall j | j in m || j in n
      ensures j in m && j in n && m[j] == n[j]
    {
      assert j != k && j in m ==> j in m - {k} && (m - {k})[j] == m[j];
      assert j != k && j in n ==> j in n - {k} && (n - {k})[j] == n[j];
    }
  }

  /** One entry, what is packed for the rest, and what follows. */
  lemma EntryGrouped<V(!new)>(packValue: V -> bytes, m: map<string, V>, x: bytes)
    requires m != map[]
    ensures var k := Pick(m);
            PackMap(packValue, m) + x
            == [1] + (PackString(k) + (packValue(m[k]) + (PackMap(packValue, m - {k}) + x)))
  {
    var k := Pick(m);
    var p, q, r := PackString(k), packValue(m[k]), PackMap(packValue, m - {k});
    Grouped([1] + p + q, r, x);
    Grouped([1] + p, q, r + x);
    Grouped([1], p, q + (r + x));
  }

  lemma EmptyOrNot<V(!new)>(packValue: V -> bytes, m: map<string, V>, x: bytes)
    ensures PackMap(packValue, m) + x != [] && (PackMap(packValue, m) + x)[0] == if m == map[] then 0 else 1
  {
  }

  lemma {:induction false} MapsSeparate<V(!new)>(packValue: V -> bytes, m: map<string, V>, n: map<string, V>, x: bytes,
                                                y: bytes)
    requires Separates(packValue) && PackMap(packValue, m) + x == PackMap(packValue, n) + y
    ensures m == n && x == y
    decreases |m|
  {
    EmptyOrNot(packValue, m, x);
    EmptyOrNot(packValue, n, y);
    if m == map[] {
      Tail([0], [0], x, y);
    } else {
      SameEntries(packValue, m, n, x, y);
      MapsSeparate(packValue, m - {Pick(m)}, n - {Pick(n)}, x, y);
      ByEntries(m, n, Pick(m));
    }
  }

  lemma SameEntries<V(!new)>(packValue: V -> bytes, m: map<string, V>, n: map<string, V>, x: bytes, y: bytes)
    requires Separates(packValue) && PackMap(packValue, m) + x == PackMap(packValue, n) + y && m != map[] && n != map[]
    ensures Pick(m) == Pick(n) && m[Pick(m)] == n[Pick(n)]
    ensures PackMap(packValue, m - {Pick(m)}) + x == PackMap(packValue, n - {Pick(n)}) + y
  {
    var k, j := Pick(m), Pick(n);
    EntryGrouped(packValue, m, x);
    EntryGrouped(packValue, n, y);
    var m', n' := PackMap(packValue, m - {k}) + x, PackMap(packValue, n - {j}) + y;
    Tail([1], [1], PackString(k) + (packValue(m[k]) + m'), PackString(j) + (packValue(n[j]) + n'));
    StringsSeparate(k, j, packValue(m[k]) + m', packValue(n[j]) + n');
    assert Apart(packValue, m[k], n[j], m', n');
  }

  lemma ValuesSeparate()
    ensures Separates(PackString) && Separates(PackBytes)
  {
    forall a, b, x, y
      ensures Apart(PackString, a, b, x, y)
    {
      if PackString(a) + x == PackString(b) + y {
        StringsSeparate(a, b, x, y);
      }
    }
    forall a, b, x, y
      ensures Apart(PackBytes, a, b, x, y)
    {
      if PackBytes(a) + x == PackBytes(b) + y {
        BytesSeparate(a, b, x, y);
      }
    }
  }

  /** Different metadata are packed differently. */
  lemma MetadataDiffer(m: Metadata, n: Metadata)
    requires PackMetadata(m) == PackMetadata(n)
    ensures m == n
  {
    ValuesSeparate();
    var m0, m1, m2 := PackMap(PackString, m.http), PackMap(PackString, m.vhttp), PackMap(PackBytes, m.extensions);
    var n0, n1, n2 := PackMap(PackString, n.http), PackMap(PackString, n.vhttp), PackMap(PackBytes, n.extensions);
    Grouped(m0, m1, m2);
    Grouped(n0, n1, n2);
    MapsSeparate(PackString, m.http, n.http, m1 + m2, n1 + n2);
    MapsSeparate(PackString, m.vhttp, n.vhttp, m2, n2);
    MapsSeparate(PackBytes, m.extensions, n.extensions, [], []);
  }

  lemma EndsDiffer(e: StreamEnd, f: StreamEnd)
    requires PackEnd(e) == PackEnd(f)
    ensures e == f
  {
    var d, g: bytes := [if e.direction == Request then 0 else 1], [if f.direction == Request then 0 else 1];
    var p, q, r, s := PackNat(e.logicalLength), PackNat(f.logicalLength), PackBytes(e.digest), PackBytes(f.digest);
    Grouped(d, p, r);
    Grouped(g, q, s);
    Tail(d, g, p + r, q + s);
    assert d[0] == g[0];
    NatsSeparate(e.logicalLength, f.logicalLength, r, s);
    BytesSeparate(e.digest, f.digest, [], []);
  }

  // ---- Reading back ----

  ghost function UnpackMetadata(b: bytes): Option<Metadata> {
    if exists m :: PackMetadata(m) == b then
      var m :| PackMetadata(m) == b;
      Some(m)
    else
      None
  }

  ghost function UnpackEnd(b: bytes): Option<StreamEnd> {
    if exists e :: PackEnd(e) == b then
      var e :| PackEnd(e) == b;
      Some(e)
    else
      None
  }

  lemma MetadataReadsBack(m: Metadata)
    ensures UnpackMetadata(PackMetadata(m)) == Some(m)
  {
    MetadataDiffer(m, UnpackMetadata(PackMetadata(m)).value);
  }

  lemma EndReadsBack(e: StreamEnd)
    ensures UnpackEnd(PackEnd(e)) == Some(e)
  {
    EndsDiffer(e, UnpackEnd(PackEnd(e)).value);
  }

  /** A stream without compression over these packings. */
  ghost function PackedContext(transactionId: TxId, direction: StreamDirection, digest: bytes -> bytes): Context {
    Context(transactionId, direction, MetadataCodec(m => PackMetadata(m), b => UnpackMetadata(b)),
            e => PackEnd(e), b => UnpackEnd(b), (t, b) => true, NO_COMPRESSION, digest)
  }

  lemma PackedIsHonest(transactionId: TxId, direction: StreamDirection, digest: bytes -> bytes)
    ensures Honest(PackedContext(transactionId, direction, digest))
  {
    NoCompressionIsLawful();
    forall m: Metadata
      ensures UnpackMetadata(PackMetadata(m)) == Some(m)
    {
      MetadataReadsBack(m);
    }
    forall e: StreamEnd
      ensures UnpackEnd(PackEnd(e)) == Some(e)
    {
      EndReadsBack(e);
    }
  }

  // ---- Sizes ----

  lemma {:induction false} BytesSize(b: bytes)
    ensures |PackBytes(b)| == 2 * |b| + 1
  {
    if b != [] {
      BytesSize(b[1..]);
    }
  }

  lemma {:induction false} StringSize(s: string)
    ensures |PackString(s)| == 4 * |s| + 1
  {
    if s != "" {
      StringSize(s[1..]);
    }
  }

  function Power(digits: nat): nat {
    if digits == 0 then 1 else 0x100 * Power(digits - 1)
  }

  lemma {:induction false} NatSize(n: nat, digits: nat)
    requires n < Power(digits)
    ensures |PackNat(n)| <= 2 * digits + 1
  {
    if n > 0 {
      NatSize(n / 0x100, digits - 1);
    }
  }

  lemma LengthFits()
    ensures U64_MAX < Power(8)
  {
    assert Power(4) == 0x1_0000_0000;
  }

  lemma {:induction false} SingleEntry<V(!new)>(packValue: V -> bytes, k: string, v: V)
    ensures PackMap(packValue, map[k := v]) == [1] + PackString(k) + packValue(v) + [0]
  {
    assert k in map[k := v];
    assert Pick(map[k := v]) == k;
    assert map[k := v] - {k} == map[];
  }

  /** The packed end record of any stream, with a digest of 32 bytes. */
  lemma EndSize(e: StreamEnd)
    requires e.logicalLength <= U64_MAX && |e.digest| == 32
    ensures |PackEnd(e)| <= 83
  {
    LengthFits();
    NatSize(e.logicalLength, 8);
    BytesSize(e.digest);
  }

  lemma EndMetadataSize(cx: Context, end: StreamEnd)
    requires |cx.packEnd(end)| <= 83
    ensures |PackMetadata(EndMetadata(cx, end))| <= 284
  {
    var packed := cx.packEnd(end);
    SingleEntry(PackBytes, STREAM_END_EXTENSION, packed);
    StringSize(STREAM_END_EXTENSION);
    BytesSize(packed);
  }

  /** What `Budget.NeverOverBudget` assumes can be met: for any digest of 32 bytes and any limits with a reserve of 66 bytes
      and frames of 324 there is a context that is honest and roomy, with metadata that reads back what it wrote. */
  lemma SomeContextIsRoomy(transactionId: TxId, direction: StreamDirection, digest: bytes -> bytes, l: Limits)
    returns (cx: Context)
    requires forall b :: |digest(b)| == 32
    requires CheckNew(l.frameLimit, l.reservedMetadata, l.windowFrames, l.maxPendingBytes) == None
    requires l.reservedMetadata >= 66 && FrameBytes(l) > HEADER_LEN + l.reservedMetadata && FrameBytes(l) >= 324
    ensures Honest(cx) && Roomy(cx, l) && EmptyMetadataSize(cx) == 3
    ensures cx.transactionId == transactionId && cx.direction == direction && cx.digest == digest
  {
    cx := PackedContext(transactionId, direction, digest);
    PackedIsHonest(transactionId, direction, digest);
    assert cx.metadata.pack(EMPTY_METADATA) == PackMetadata(EMPTY_METADATA);
    forall writes | |Input(writes)| <= U64_MAX
      ensures Budget.Small(cx, End(EndOf(cx, writes)), FrameBytes(l))
    {
      EndSize(EndOf(cx, writes));
      EndMetadataSize(cx, EndOf(cx, writes));
    }
  }
}
