/** Refcount widths, from the header's own fields: sixteen bits are walked, every other width is refused. */
module Widths {
  import opened Bytes
  import opened Arith
  import opened Format
  import opened Disk
  import opened Engine

  /** Version 2 has no order field and means sixteen bits; version 3 says so with order 4. */
  predicate SixteenBit(h: Header) { h.version < 3 || h.refcountOrder == 4 }

  lemma SixteenIsFour(n: nat)
    ensures Pow2(n) == 16 <==> n == 4
  {
    assert Pow2(4) == 16 && Pow2(3) == 8 && Pow2(5) == 32;
    if n < 4 { Pow2Mono(n, 3); }
    if n > 4 { Pow2Mono(5, n); }
  }

  lemma WideMeans(h: Header)
    ensures Wide16(h) <==> SixteenBit(h)
  {
    SixteenIsFour(h.refcountOrder);
  }

  /** On any device, with any other width: no refcount is read, changed or claimed, and nothing else is. */
  lemma OtherWidthRefused(c: Core, hostOff: nat)
    requires !SixteenBit(c.h)
    ensures AllocateCluster(c) == Bad(c, WideRefcounts)
    ensures ReadRefcount(c, hostOff) == Err(WideRefcounts)
    ensures DecrementRefcount(c, hostOff) == Bad(c, WideRefcounts)
  {
    WideMeans(c.h);
  }

  /** On any device, with sixteen bits: the width is never the reason. */
  lemma SixteenBitTaken(c: Core, hostOff: nat)
    requires SixteenBit(c.h)
    ensures AllocateCluster(c).Outcome() != Err(WideRefcounts)
    ensures ReadRefcount(c, hostOff) != Err(WideRefcounts)
    ensures DecrementRefcount(c, hostOff).Outcome() != Err(WideRefcounts)
  {
    hide ScanTable, FirstAbsent, EntriesPerBlock, Mul, Div, Mod, EntryCluster, Encode, Decode, RefcountBits;
    WideMeans(c.h);
    forall root, b, e ensures ScanTable(c, root, b, e) != Err(WideRefcounts) { ScanNotWidth(c, root, b, e); }
    forall root, b, e, s ensures ScanTable(c.(root := s), root, b, e) != Err(WideRefcounts) {
      ScanNotWidth(c.(root := s), root, b, e);
    }
  }

  lemma {:induction false} ScanNotWidth(c: Core, root: seq<byte>, b: nat, e: nat)
    ensures ScanTable(c, root, b, e) != Err(WideRefcounts)
    decreases |root| - b
  {
    hide FirstZero, EntriesPerBlock, Word;
    if 8 * b + 8 <= |root| { ScanNotWidth(c, root, b + 1, 0); }
  }

  // ---- the entries of a block, for every width the format has ----

  lemma SmallPowers()
    ensures Pow2(0) == 1 && Pow2(1) == 2 && Pow2(2) == 4 && Pow2(3) == 8 && Pow2(4) == 16 && Pow2(5) == 32
    ensures Pow2(6) == 64 && Pow2(7) == 128
  {}

  /** A block is exactly full of entries. */
  lemma EntriesFill(h: Header)
    requires h.version >= 3 && h.refcountOrder <= 6
    ensures EntriesPerBlock(h) * Pow2(h.refcountOrder) == 8 * h.ClusterSize()
  {
    hide Pow2, BlockEntries;
    SmallPowers();
    var cs, n := h.ClusterSize(), h.refcountOrder;
    FullBlock(cs);
    if n == 0 {
      assert EntriesPerBlock(h) == BlockEntries(cs, 1);
    } else if n == 1 {
      assert EntriesPerBlock(h) == BlockEntries(cs, 2);
    } else if n == 2 {
      assert EntriesPerBlock(h) == BlockEntries(cs, 4);
    } else if n == 3 {
      assert EntriesPerBlock(h) == BlockEntries(cs, 8);
    } else if n == 4 {
      assert EntriesPerBlock(h) == BlockEntries(cs, 16);
    } else if n == 5 {
      assert EntriesPerBlock(h) == BlockEntries(cs, 32);
    } else {
      assert EntriesPerBlock(h) == BlockEntries(cs, 64);
    }
  }

  lemma FullBlock(cs: nat)
    requires cs >= 512 && cs % 512 == 0
    ensures BlockEntries(cs, 1) == 8 * cs && BlockEntries(cs, 2) * 2 == 8 * cs && BlockEntries(cs, 4) * 4 == 8 * cs
    ensures BlockEntries(cs, 8) * 8 == 8 * cs && BlockEntries(cs, 16) * 16 == 8 * cs
    ensures BlockEntries(cs, 32) * 32 == 8 * cs && BlockEntries(cs, 64) * 64 == 8 * cs
  {
    var k := cs / 512;
    assert cs == 512 * k;
    assert cs / 8 == 64 * k && cs / 4 == 128 * k && cs / 2 == 256 * k;
  }

  function TwoBytes(b: seq<byte>, o: nat): nat {
    if o + 2 > |b| then 0
    else
      var high: nat, low: nat := b[o], b[o + 1];
      256 * high + low
  }

  lemma OneByte(b: seq<byte>, o: nat)
    ensures Decode(Slice(b, o, 1)) == if o < |b| then b[o] else 0
  {
    var s := Slice(b, o, 1);
    if o < |b| { assert s == [b[o]] && s[..0] == []; }
  }

  lemma BigEndian(b: seq<byte>, o: nat)
    ensures Decode(Slice(b, o, 2)) == TwoBytes(b, o)
  {
    var s := Slice(b, o, 2);
    if o + 2 <= |b| { assert s[..1] == [b[o]] && [b[o]][..0] == []; }
  }

  lemma Positions(e: nat)
    ensures e * 1 / 8 == e / 8 && e * 1 % 8 == e % 8 && e * 2 / 8 == e / 4 && e * 2 % 8 == 2 * (e % 4)
    ensures e * 4 / 8 == e / 2 && e * 4 % 8 == 4 * (e % 2)
  {}

  lemma NarrowCount(h: Header, block: seq<byte>, e: nat)
    requires h.version >= 3
    ensures h.refcountOrder == 0 ==> CountAt(h, block, e) == Div(ByteOf(block, e / 8), Pow2(e % 8)) % 2
    ensures h.refcountOrder == 1 ==> CountAt(h, block, e) == Div(ByteOf(block, e / 4), Pow2(2 * (e % 4))) % 4
    ensures h.refcountOrder == 2 ==> CountAt(h, block, e) == Div(ByteOf(block, e / 2), Pow2(4 * (e % 2))) % 16
  {
    hide Decode, Div, Pow2, ByteOf;
    SmallPowers();
    Positions(e);
  }

  lemma WideCount(h: Header, block: seq<byte>, e: nat)
    requires h.version >= 3
    ensures h.refcountOrder == 3 ==> CountAt(h, block, e) == Decode(Slice(block, e, 1))
    ensures h.refcountOrder == 4 ==> CountAt(h, block, e) == Decode(Slice(block, 2 * e, 2))
    ensures h.refcountOrder == 5 ==> CountAt(h, block, e) == Decode(Slice(block, 4 * e, 4))
    ensures h.refcountOrder == 6 ==> CountAt(h, block, e) == Decode(Slice(block, 8 * e, 8))
  {
    hide Decode, Div, Pow2, ByteOf, Slice;
    SmallPowers();
  }

  /** The count an entry holds: whole big-endian bytes from order 3 on, and below it bits of one byte, the lowest
      first. */
  lemma CountByWidth(h: Header, block: seq<byte>, e: nat)
    requires h.version >= 3
    ensures h.refcountOrder == 0 ==> CountAt(h, block, e) == Div(ByteOf(block, e / 8), Pow2(e % 8)) % 2
    ensures h.refcountOrder == 1 ==> CountAt(h, block, e) == Div(ByteOf(block, e / 4), Pow2(2 * (e % 4))) % 4
    ensures h.refcountOrder == 2 ==> CountAt(h, block, e) == Div(ByteOf(block, e / 2), Pow2(4 * (e % 2))) % 16
    ensures h.refcountOrder == 3 ==> CountAt(h, block, e) == ByteOf(block, e)
    ensures h.refcountOrder == 4 ==> CountAt(h, block, e) == TwoBytes(block, 2 * e)
    ensures h.refcountOrder == 5 ==> CountAt(h, block, e) == Decode(Slice(block, 4 * e, 4))
    ensures h.refcountOrder == 6 ==> CountAt(h, block, e) == Decode(Slice(block, 8 * e, 8))
  {
    hide CountAt, Decode, Div, Pow2;
    NarrowCount(h, block, e);
    WideCount(h, block, e);
    OneByte(block, e);
    BigEndian(block, 2 * e);
  }
}
