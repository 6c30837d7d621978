/** Writing down images: packed fields, tables, refcount blocks and whole headers, and reading them back. */
module Building {
  import opened Bytes
  import opened Arith
  import opened Format
  import opened Disk

  // ---- fields ----

  /** Values one after another, each big-endian in its own width. */
  function Pack(fields: seq<(nat, nat)>): seq<byte> {
    if fields == [] then [] else Encode(fields[0].0, fields[0].1) + Pack(fields[1..])
  }

  function Offset(fields: seq<(nat, nat)>, i: nat): nat
    requires i <= |fields|
  {
    if i == 0 then 0 else fields[0].1 + Offset(fields[1..], i - 1)
  }

  lemma {:induction false} OffsetNext(fields: seq<(nat, nat)>, i: nat)
    requires i < |fields|
    ensures Offset(fields, i + 1) == Offset(fields, i) + fields[i].1
  {
    if i > 0 { OffsetNext(fields[1..], i - 1); }
  }

  lemma {:induction false} PackLength(fields: seq<(nat, nat)>)
    ensures |Pack(fields)| == Offset(fields, |fields|)
  {
    if fields != [] { PackLength(fields[1..]); }
  }

  lemma FieldSkips(a: seq<byte>, b: seq<byte>, o: nat, n: nat)
    ensures Field(a + b, |a| + o, n) == Field(b, o, n)
  {
    if o + n <= |b| { assert (a + b)[|a| + o..|a| + o + n] == b[o..o + n]; }
  }

  /** A packed field reads back. */
  lemma {:induction false} FieldPacked(fields: seq<(nat, nat)>, pad: seq<byte>, i: nat)
    requires i < |fields| && fields[i].0 < Pow256(fields[i].1)
    ensures Field(Pack(fields) + pad, Offset(fields, i), fields[i].1) == fields[i].0
  {
    hide Decode, Encode;
    var first, rest := Encode(fields[0].0, fields[0].1), Pack(fields[1..]);
    assert Pack(fields) + pad == first + (rest + pad);
    if i == 0 {
      assert (first + (rest + pad))[0..fields[0].1] == first;
    } else {
      FieldPacked(fields[1..], pad, i - 1);
      FieldSkips(first, rest + pad, Offset(fields[1..], i - 1), fields[i].1);
    }
  }

  // ---- tables and refcount blocks of one cluster ----

  function Widened(values: seq<nat>, width: nat): seq<(nat, nat)> {
    seq(|values|, (i: nat) requires i < |values| => (values[i], width))
  }

  lemma {:induction false} EvenOffset(values: seq<nat>, width: nat, i: nat)
    requires i <= |values|
    ensures Offset(Widened(values, width), i) == Mul(i, width)
  {
    if i > 0 {
      EvenOffset(values, width, i - 1);
      OffsetNext(Widened(values, width), i - 1);
    }
  }

  /** The values, each width bytes wide, and zeros up to n bytes. */
  function Filled(values: seq<nat>, width: nat, n: nat): seq<byte> {
    var b := Pack(Widened(values, width));
    if |b| <= n then b + Zeros(n - |b|) else b
  }

  lemma FilledLength(values: seq<nat>, width: nat, n: nat)
    requires Mul(|values|, width) <= n
    ensures |Filled(values, width, n)| == n
  {
    PackLength(Widened(values, width));
    EvenOffset(values, width, |values|);
  }

  lemma FilledEntry(values: seq<nat>, width: nat, n: nat, i: nat)
    requires Mul(|values|, width) <= n && Mul(i, width) + width <= n
    requires i < |values| ==> values[i] < Pow256(width)
    ensures Field(Filled(values, width, n), Mul(i, width), width) == if i < |values| then values[i] else 0
  {
    hide Decode, Encode, Mul;
    var fields := Widened(values, width);
    FilledLength(values, width, n);
    PackLength(fields);
    EvenOffset(values, width, |values|);
    var pad := Zeros(n - |Pack(fields)|);
    if i < |values| {
      EvenOffset(values, width, i);
      FieldPacked(fields, pad, i);
    } else {
      MulMono(|values|, i, width);
      ZerosRead(Pack(fields), |pad|, Mul(i, width), width);
    }
  }

  lemma ZerosRead(a: seq<byte>, n: nat, o: nat, width: nat)
    requires |a| <= o && o + width <= |a| + n
    ensures Field(a + Zeros(n), o, width) == 0
  {
    DecodeZeros((a + Zeros(n))[o..o + width]);
  }

  // ---- whole headers ----

  /** Every field the format has, in its order and width. A version 2 header is the first thirteen; one of version 3 has
      eighteen, and its compression type too when it says it is longer than 104 bytes. */
  function AllFields(h: Header): (f: seq<(nat, nat)>)
    ensures |f| == 19
  {
    [(0x5146_49fb, 4), (h.version, 4), (h.backingFileOffset, 8), (h.backingFileSize, 4), (h.clusterBits, 4),
     (h.virtualSize, 8), (h.cryptMethod, 4), (h.l1Size, 4), (h.l1TableOffset, 8), (h.refcountTableOffset, 8),
     (h.refcountTableClusters, 4), (h.nbSnapshots, 4), (h.snapshotsOffset, 8), (h.incompatibleFeatures, 8),
     (h.compatibleFeatures, 8), (h.autoclearFeatures, 8), (h.refcountOrder, 4), (h.headerLength, 4),
     (h.compressionType, 1)]
  }

  function FieldCount(h: Header): (n: nat)
    ensures n <= 19
  {
    if h.version == 2 then 13 else if h.headerLength <= 104 then 18 else 19
  }

  function HeaderFields(h: Header): (f: seq<(nat, nat)>)
    ensures |f| == FieldCount(h)
  {
    AllFields(h)[..FieldCount(h)]
  }

  function HeaderLength(h: Header): nat { if h.version == 2 then 72 else if h.headerLength <= 104 then 104 else 105 }

  function EncodeHeader(h: Header): seq<byte> { Pack(HeaderFields(h)) }

  /** A header the format allows: tables aligned, an L1 table that covers the disk, the backing name in the first
      cluster, and the fields its version or length leaves out at what that means. */
  predicate PlainHeader(h: Header) {
    && (h.version == 2 || h.version == 3)
    && (h.version == 2 ==>
          && h.headerLength == 72 && h.refcountOrder == 4 && h.incompatibleFeatures == 0
          && h.compatibleFeatures == 0 && h.autoclearFeatures == 0)
    && (h.version == 2 || h.headerLength <= 104 ==> h.compressionType == 0)
    && h.virtualSize <= Mul(h.l1Size, Mul(h.ClusterSize(), h.L2Entries()))
    && Mod(h.l1TableOffset, h.ClusterSize()) == 0 && Mod(h.refcountTableOffset, h.ClusterSize()) == 0
    && Mod(h.snapshotsOffset, h.ClusterSize()) == 0
    && h.backingFileOffset + h.backingFileSize <= h.ClusterSize()
  }

  lemma FirstOffset(fields: seq<(nat, nat)>)
    ensures Offset(fields, 0) == 0
  {}

  lemma {:induction false} OffsetPrefix(fields: seq<(nat, nat)>, n: nat, i: nat)
    requires i <= n <= |fields|
    ensures Offset(fields[..n], i) == Offset(fields, i)
  {
    if i > 0 {
      assert fields[..n][1..] == fields[1..][..n - 1];
      OffsetPrefix(fields[1..], n - 1, i - 1);
    }
  }

  lemma FieldOffsets(h: Header)
    ensures var f := AllFields(h);
            && Offset(f, 0) == 0 && Offset(f, 1) == 4 && Offset(f, 2) == 8 && Offset(f, 3) == 16 && Offset(f, 4) == 20
            && Offset(f, 5) == 24 && Offset(f, 6) == 32 && Offset(f, 7) == 36 && Offset(f, 8) == 40
            && Offset(f, 9) == 48 && Offset(f, 10) == 56 && Offset(f, 11) == 60 && Offset(f, 12) == 64
            && Offset(f, 13) == 72 && Offset(f, 14) == 80 && Offset(f, 15) == 88 && Offset(f, 16) == 96
            && Offset(f, 17) == 100 && Offset(f, 18) == 104 && Offset(f, 19) == 105
  {
    hide Offset;
    var f := AllFields(h);
    FirstOffset(f);
    OffsetNext(f, 0);
    OffsetNext(f, 1);
    OffsetNext(f, 2);
    OffsetNext(f, 3);
    OffsetNext(f, 4);
    OffsetNext(f, 5);
    OffsetNext(f, 6);
    OffsetNext(f, 7);
    OffsetNext(f, 8);
    OffsetNext(f, 9);
    OffsetNext(f, 10);
    OffsetNext(f, 11);
    OffsetNext(f, 12);
    OffsetNext(f, 13);
    OffsetNext(f, 14);
    OffsetNext(f, 15);
    OffsetNext(f, 16);
    OffsetNext(f, 17);
    OffsetNext(f, 18);
  }

  lemma EncodedLength(h: Header)
    requires h.version == 2 || h.version == 3
    ensures |EncodeHeader(h)| == HeaderLength(h)
  {
    hide Pack, Offset, AllFields;
    FieldOffsets(h);
    PackLength(HeaderFields(h));
    OffsetPrefix(AllFields(h), FieldCount(h), FieldCount(h));
  }

  /** Every header field reads back from its place. */
  lemma HeaderField(h: Header, pad: seq<byte>, i: nat)
    requires i < FieldCount(h)
    ensures Field(EncodeHeader(h) + pad, Offset(AllFields(h), i), AllFields(h)[i].1) == AllFields(h)[i].0
  {
    hide Pack, Offset, Field, FieldCount;
    OffsetPrefix(AllFields(h), FieldCount(h), i);
    FieldWidths(h, i);
    FieldPacked(HeaderFields(h), pad, i);
  }

  lemma FieldWidths(h: Header, i: nat)
    requires i < 19
    ensures AllFields(h)[i].0 < Pow256(AllFields(h)[i].1)
  {
    Pow256Values();
    assert Pow256(1) == 256 * Pow256(0);
  }

  lemma ByteField(b: seq<byte>, o: nat)
    requires o < |b|
    ensures Field(b, o, 1) == b[o]
  {
    assert b[o..o + 1] == [b[o]] && [b[o]][..0] == [];
  }

  /** An L1 table covers the disk when it has at least as many entries as the disk needs. */
  lemma Covers(h: Header)
    ensures h.l1Size >= CeilDiv(h.virtualSize, BytesPerL1Entry(h))
       <==> h.virtualSize <= Mul(h.l1Size, Mul(h.ClusterSize(), h.L2Entries()))
  {
    hide Mul, Div, Mod;
    var d := BytesPerL1Entry(h);
    if h.l1Size >= CeilDiv(h.virtualSize, d) { CoverageOf(h); }
    if h.virtualSize <= Mul(h.l1Size, d) {
      MulNext(h.l1Size, d);
      DivLess(h.virtualSize + d - 1, h.l1Size + 1, d);
    }
  }

  /** A header is what parsing its own bytes gives, whatever follows them, in either version. */
  lemma HeaderRoundTrip(h: Header, pad: seq<byte>)
    requires PlainHeader(h)
    ensures |EncodeHeader(h)| == HeaderLength(h) && ParseHeader(EncodeHeader(h) + pad) == Ok(h)
  {
    hide Pack, Offset, Field, Mul, Div, Mod, Pow2, CeilDiv, BytesPerL1Entry;
    EncodedLength(h);
    FieldOffsets(h);
    Covers(h);
    forall i: nat | i < FieldCount(h)
      ensures Field(EncodeHeader(h) + pad, Offset(AllFields(h), i), AllFields(h)[i].1) == AllFields(h)[i].0
    {
      HeaderField(h, pad, i);
    }
    if FieldCount(h) == 19 { ByteField(EncodeHeader(h) + pad, 104); }
  }

  lemma NextOffset(fields: seq<(nat, nat)>, i: nat)
    requires i < |fields|
    ensures Offset(fields, i + 1) == fields[0].1 + Offset(fields[1..], i)
  {}

  lemma FieldEncoded(b: seq<byte>, o: nat, n: nat)
    requires o + n <= |b|
    ensures Encode(Field(b, o, n), n) == b[o..o + n]
  {
    hide Decode, Encode;
    EncodeDecode(b[o..o + n]);
  }

  lemma {:induction false} PackIsPrefix(fields: seq<(nat, nat)>, b: seq<byte>, base: nat)
    requires base + Offset(fields, |fields|) <= |b|
    requires forall i | 0 <= i < |fields| :: Field(b, base + Offset(fields, i), fields[i].1) == fields[i].0
    ensures Pack(fields) == b[base..base + Offset(fields, |fields|)]
  {
    hide Decode, Encode, Field, Offset;
    FirstOffset(fields);
    if fields != [] {
      var w, rest := fields[0].1, fields[1..];
      assert Field(b, base + Offset(fields, 0), w) == fields[0].0;
      NextOffset(fields, |rest|);
      forall i: nat | i <= |rest| ensures Offset(fields, i + 1) == w + Offset(rest, i) { NextOffset(fields, i); }
      FieldEncoded(b, base, w);
      forall i | 0 <= i < |rest| ensures Field(b, base + w + Offset(rest, i), rest[i].1) == rest[i].0 {
        assert Field(b, base + Offset(fields, i + 1), fields[i + 1].1) == fields[i + 1].0;
      }
      PackIsPrefix(rest, b, base + w);
    }
  }

  /** An accepted header begins with the bytes of what it parses to: nothing in it is lost or made up. */
  lemma ParsedIsEncoded(b: seq<byte>)
    requires ParseHeader(b).Ok? && |b| >= 105
    ensures PlainHeader(ParseHeader(b).value)
    ensures EncodeHeader(ParseHeader(b).value) <= b
  {
    hide Pack, Offset, Field, Mul, Div, Mod, Pow2, CeilDiv, BytesPerL1Entry;
    var h := ParseHeader(b).value;
    EncodedLength(h);
    FieldOffsets(h);
    Covers(h);
    ByteField(b, 104);
    var f := HeaderFields(h);
    forall i: nat | i <= |f| ensures Offset(f, i) == Offset(AllFields(h), i) {
      OffsetPrefix(AllFields(h), FieldCount(h), i);
    }
    forall i | 0 <= i < |f| ensures Field(b, 0 + Offset(f, i), f[i].1) == f[i].0 {}
    PackIsPrefix(f, b, 0);
  }

  /** Exactly the bytes of a header the format allows are accepted. */
  lemma AcceptedExactly(b: seq<byte>)
    requires |b| >= 105
    ensures ParseHeader(b).Ok? <==> exists h :: PlainHeader(h) && EncodeHeader(h) <= b
  {
    hide ParseHeader, EncodeHeader, PlainHeader;
    if ParseHeader(b).Ok? {
      ParsedIsEncoded(b);
      assert PlainHeader(ParseHeader(b).value) && EncodeHeader(ParseHeader(b).value) <= b;
    }
    if h :| PlainHeader(h) && EncodeHeader(h) <= b {
      var n := |EncodeHeader(h)|;
      HeaderRoundTrip(h, b[n..]);
      assert EncodeHeader(h) + b[n..] == b;
    }
  }

  /** Bytes too few for a header of their version are not one. */
  lemma ShortIsRefused(b: seq<byte>)
    ensures |b| < 72 ==> ParseHeader(b) == Err(ShortHeader)
    ensures ParseHeader(b).Ok? && ParseHeader(b).value.version == 3 ==> |b| >= 104
  {
    hide Field, Mul, Div, Mod, CeilDiv, BytesPerL1Entry;
  }

  /** The magic is the letters QFI and the byte fb. */
  lemma MagicBytes(h: Header)
    ensures |EncodeHeader(h)| >= 4 && EncodeHeader(h)[..4] == ['Q' as byte, 'F' as byte, 'I' as byte, 0xfb]
  {
    hide AllFields, Encode, Decode;
    var f := HeaderFields(h);
    assert f[0] == (0x5146_49fb, 4) by { FirstField(h); }
    assert Pack(f) == Encode(0x5146_49fb, 4) + Pack(f[1..]);
    MagicEncoded();
  }

  lemma FirstField(h: Header)
    ensures AllFields(h)[0] == (0x5146_49fb, 4)
  {}

  lemma MagicEncoded()
    ensures Encode(0x5146_49fb, 4) == ['Q' as byte, 'F' as byte, 'I' as byte, 0xfb]
  {
    assert Encode(0x51, 1) == Encode(0, 0) + [0x51];
    assert Encode(0x5146, 2) == Encode(0x51, 1) + [0x46];
    assert Encode(0x51_4649, 3) == Encode(0x5146, 2) + [0x49];
    assert Encode(0x5146_49fb, 4) == Encode(0x51_4649, 3) + [0xfb];
  }

  // ---- clusters side by side ----

  function Join(clusters: seq<seq<byte>>): seq<byte> {
    if clusters == [] then [] else clusters[0] + Join(clusters[1..])
  }

  ghost predicate AllSized(cs: nat, clusters: seq<seq<byte>>) { forall k | 0 <= k < |clusters| :: |clusters[k]| == cs }

  lemma {:induction false} JoinLength(cs: nat, clusters: seq<seq<byte>>)
    requires AllSized(cs, clusters)
    ensures |Join(clusters)| == Mul(|clusters|, cs)
  {
    if clusters != [] { JoinLength(cs, clusters[1..]); }
  }

  lemma {:induction false} JoinByte(cs: nat, clusters: seq<seq<byte>>, tail: seq<byte>, k: nat, o: nat)
    requires AllSized(cs, clusters)
    requires k < |clusters| && o < cs
    ensures Mul(k, cs) + o < |Join(clusters) + tail| && (Join(clusters) + tail)[Mul(k, cs) + o] == clusters[k][o]
  {
    var rest := clusters[1..];
    assert Join(clusters) + tail == clusters[0] + (Join(rest) + tail);
    if k > 0 { JoinByte(cs, rest, tail, k - 1, o); }
  }

  /** Cluster k of the joined image is the k-th part. */
  lemma JoinCluster(cs: nat, clusters: seq<seq<byte>>, tail: seq<byte>, k: nat)
    requires AllSized(cs, clusters)
    requires k < |clusters|
    ensures ClusterOf(cs, Join(clusters) + tail, k) == clusters[k]
  {
    hide Join, Mul;
    forall o | 0 <= o < cs ensures ClusterOf(cs, Join(clusters) + tail, k)[o] == clusters[k][o] {
      JoinByte(cs, clusters, tail, k, o);
    }
  }

  /** The cluster after the last whole one is the tail, and zeros. */
  lemma TailCluster(cs: nat, clusters: seq<seq<byte>>, tail: seq<byte>)
    requires AllSized(cs, clusters)
    requires |tail| <= cs
    ensures ClusterOf(cs, Join(clusters) + tail, |clusters|) == tail + Zeros(cs - |tail|)
  {
    hide Join;
    JoinLength(cs, clusters);
  }
}
