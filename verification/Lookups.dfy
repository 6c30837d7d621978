/** A lookup on any device at all, from the bits of the two table entries it reads. */
module Lookups {
  import opened Bytes
  import opened Arith
  import opened Format
  import opened Engine
  import opened Reading
  import opened Payloads
  import opened Statuses

  /** Bits 0 to 8 and 56 to 62. */
  predicate ReservedInL1(e: nat) { e % 0x200 != 0 || e / 0x100_0000_0000_0000 % 128 != 0 }

  /** Bits 1 to 8 and 56 to 61, and bit 0 before version 3. */
  predicate ReservedInL2(version: nat, e: nat) {
    e / 2 % 256 != 0 || e / 0x100_0000_0000_0000 % 64 != 0 || (version < 3 && e % 2 == 1)
  }

  /** Bit 63, of a 64-bit entry. */
  predicate Marked(e: nat) { e >= 0x8000_0000_0000_0000 }

  /** Where an offset field does not name a whole cluster of the image. */
  predicate Stray(h: Header, len: nat, off: nat) { Mod(off, h.ClusterSize()) != 0 || off + h.ClusterSize() > len }

  lemma EntryBitsMean(e: nat, version: nat)
    ensures L1ReservedBits(e) <==> ReservedInL1(e)
    ensures L2ReservedBits(version, e) <==> ReservedInL2(version, e)
    ensures Compressed(e) <==> PackedWord(e)
    ensures ZeroFlag(e) <==> e % 2 == 1
    ensures HostOffset(e) == OffsetField(e) && (Copied(e) <==> Marked(e))
  {
    hide L1ReservedBits, L2ReservedBits, Compressed, ZeroFlag, HostOffset;
    Quotients(e);
    FlagBit(e);
  }

  /** What an L1 entry answers before any L2 table is read: a refusal, no table, or the table's place. */
  lemma L1Answer(h: Header, len: nat, e: nat)
    ensures var t, off := L2TableOffset(h, len, e), OffsetField(e);
            && (t == Err(L1Reserved) <==> ReservedInL1(e))
            && (t == Ok(None) <==> !ReservedInL1(e) && off == 0)
            && (t == Err(L1Unaligned) <==> !ReservedInL1(e) && off != 0 && Mod(off, h.ClusterSize()) != 0)
            && (t == Err(L1Outside) <==>
                  && !ReservedInL1(e) && off != 0 && Mod(off, h.ClusterSize()) == 0 && off + h.ClusterSize() > len)
            && (t == Ok(Some(off)) <==> !ReservedInL1(e) && off != 0 && !Stray(h, len, off))
  {
    hide L1ReservedBits, L2ReservedBits, Compressed, ZeroFlag, HostOffset, Mod;
    EntryBitsMean(e, h.version);
  }

  /** What an L2 entry answers; a COPIED bit in it is believed only under an L1 entry that is marked too. */
  lemma L2Answer(h: Header, len: nat, marked: bool, e: nat)
    ensures var m, off := Classify(h, len, marked, e), OffsetField(e);
            var (at, span) := DecodeDescriptor(e, h.clusterBits);
            var bad := ReservedInL2(h.version, e);
            && (m == Ok(Packed(at, span)) <==> PackedWord(e) && at + span <= len)
            && (m == Err(CompressedOutside) <==> PackedWord(e) && at + span > len)
            && (m == Err(L2Reserved) <==> !PackedWord(e) && bad)
            && (m == Ok(Zero) <==> ZeroEntryBits(h, e) && !bad)
            && (m == Ok(Unallocated) <==> HoleBits(h, e) && !bad)
            && (!PackedWord(e) && !bad && !ZeroEntryBits(h, e) && off != 0 ==>
                  m == if Mod(off, h.ClusterSize()) != 0 then Err(L2Unaligned)
                       else if off + h.ClusterSize() > len then Err(L2Outside)
                       else Ok(Plain(off, marked && Marked(e))))
  {
    hide L1ReservedBits, L2ReservedBits, Compressed, ZeroFlag, HostOffset, Mod, DecodeDescriptor, Copied;
    EntryBitsMean(e, h.version);
  }

  /** The lookup puts the two together, on any device. */
  lemma LookupByEntries(c: Core, v: nat)
    ensures var a, m := SplitVirtual(c.h, v), PureLookup(c, v);
            && (a.l1Index >= |c.l1| ==> m == Err(L1Index))
            && (a.l1Index < |c.l1| ==>
                  var e := c.l1[a.l1Index];
                  var t := L2TableOffset(c.h, c.imageLen, e);
                  && (t.Err? ==> m == Err(t.error))
                  && (t == Ok(None) ==> m == Ok(Unallocated))
                  && (t.Ok? && t.value.Some? && t.value.value + c.h.ClusterSize() <= |c.dev| ==>
                        m == Classify(c.h, c.imageLen, Marked(e),
                                      Word(Slice(c.dev, t.value.value, c.h.ClusterSize()), a.l2Index))))
  {
    hide L2TableOffset, Classify, Word, SplitVirtual;
  }

  /** Under an L1 entry that is not marked no flag is believed, stale or not: a write to a plain cluster with more than
      one reference takes a new cluster, seeded from it. */
  lemma UnmarkedTable(st: State, off: nat, buf: seq<byte>)
    requires Paired(st) && buf != [] && off + |buf| <= st.core.h.virtualSize
    requires Mod(off, st.core.h.ClusterSize()) + |buf| <= st.core.h.ClusterSize()
    requires var i := SplitVirtual(st.core.h, off).l1Index; i < |st.core.l1| && !Marked(st.core.l1[i])
    ensures var l, w := LookupCluster(st.core, st.caches[0], off), WriteAt(st, true, off, buf);
            l.Good? && l.v.Plain? ==>
              && !l.v.copied
              && var n := ReadRefcount(st.core, l.v.hostOff);
              n.Ok? && n.value > 1 ==>
                var moved := ReallocateChunk(st.(caches := [l.s] + st.caches[1..]), off, buf, SeedHost(l.v.hostOff),
                                             Some(l.v.hostOff));
                w.s == moved.s && (w.Good? <==> moved.Good?)
  {
    hide SplitVirtual, ReadRefcount, ReallocateChunk, L2TableOffset, HostOffset, Compressed, ZeroFlag, L2ReservedBits,
      DecodeDescriptor, ReadL2Entry, WriteAt, Mod;
    OneChunkWrite(st, off, buf);
  }
}
