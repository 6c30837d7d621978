/** Cluster statuses, from the bits of the two table entries, and what a read finds under each of them. */
module Statuses {
  import opened Bytes
  import opened Arith
  import opened Format
  import opened Accounting
  import opened Disk
  import opened Images
  import opened Engine
  import opened Safety
  import opened Allocator
  import opened Reading
  import opened Chunks
  import opened Writes
  import opened Spans
  import opened Extents
  import opened Payloads

  /** Bits 9 to 55 of an entry, as the offset they are. */
  function OffsetField(w: nat): nat { w / 0x200 % 0x8000_0000_0000 * 0x200 }

  /** From version 3 on, an uncompressed entry with bit 0. */
  predicate ZeroEntryBits(h: Header, w: nat) { !PackedWord(w) && h.version >= 3 && w % 2 == 1 }

  /** An uncompressed entry with neither a zero flag nor a host offset. */
  predicate HoleBits(h: Header, w: nat) { !PackedWord(w) && !ZeroEntryBits(h, w) && OffsetField(w) == 0 }

  /** The L2 entry that covers v, or zero where the L1 entry names no table. */
  ghost function EntryOf(x: Context, d: Clusters, v: nat): nat {
    var r := SlotOf(x.h, v);
    if !ValidSlot(x, r) || OffsetField(SlotWord(x, d, Table(0, r.i))) == 0 then 0 else SlotWord(x, d, r)
  }

  lemma NoTableNoWord(x: Context, d: Clusters, r: Slot)
    requires ValidSlot(x, r) && r.Data? && OffsetField(SlotWord(x, d, Table(r.k, r.i))) == 0
    ensures SlotWord(x, d, r) == 0
  {
    hide HostOffset;
    Quotients(SlotWord(x, d, Table(r.k, r.i)));
  }

  lemma StatusLookup(x: Context, st: State, v: nat)
    requires StateOK(x, st) && v < x.h.virtualSize
    ensures var m := PureLookup(st.core, v);
            var w := EntryOf(x, D(st.core), v);
            && st.core.h == x.h && m.Ok?
            && (m.value.Zero? <==> ZeroEntryBits(x.h, w)) && (m.value.Unallocated? <==> HoleBits(x.h, w))
  {
    hide SlotWord, WellFormed, MemoryOK, CacheOK, ByteUnder, DecodeDescriptor, Copied, PureLookup, MapOf, Div, Mod,
      HostOffset, Compressed, ZeroFlag, Cl, SplitVirtual, Base;
    HeaderOK(x, st);
    StateMeans(x, st);
    SlotOfCursor(x, v);
    var r := SlotOf(x.h, v);
    if OffsetField(SlotWord(x, D(st.core), Table(0, r.i))) == 0 { NoTableNoWord(x, D(st.core), r); }
    LookupSlot(x, st.core, v, r);
    MapMeans(x, st.core, r);
    Quotients(SlotWord(x, D(st.core), r));
    assert ZeroFlag(SlotWord(x, D(st.core), r)) <==> SlotWord(x, D(st.core), r) % 2 == 1 by {
      FlagBit(SlotWord(x, D(st.core), r));
    }
  }

  lemma FlagBit(w: nat)
    ensures ZeroFlag(w) <==> w % 2 == 1
  {
    Quotients(w);
  }

  /** The status of any cluster of the disk, whatever the cache of the walk holds: zero for a version 3 entry with
      bit 0, unallocated for no table or an empty entry, allocated for every other; and never an error. */
  lemma StatusFromBits(x: Context, st: State, k: Walk, v: nat)
    requires StateOK(x, st) && v < x.h.virtualSize && CacheOK(st.core, k.cache)
    ensures var s := StatusAt(st.core, k, v);
            var w := EntryOf(x, D(st.core), v);
            && s.Good? && Status(st.core, v) == Ok(s.v)
            && (s.v == StatusZero <==> ZeroEntryBits(x.h, w))
            && (s.v == StatusUnallocated <==> HoleBits(x.h, w))
            && (s.v == StatusAllocated <==> !ZeroEntryBits(x.h, w) && !HoleBits(x.h, w))
  {
    hide StateOK, EntryOf, PureLookup, CacheOK, ZeroEntryBits, HoleBits;
    StatusLookup(x, st, v);
    StatusCached(st.core, k, v);
  }

  /** Past the end of the disk there is no status to ask for, and nothing is looked up. */
  lemma NoStatusPastEnd(c: Core, k: Walk, v: nat)
    ensures v >= c.h.virtualSize <==> StatusAt(c, k, v) == Bad(k, OutOfBounds)
  {
    hide LookupCluster;
  }

  /** Bytes off to off + n are what the backing chain holds there, or one of them cannot be read. */
  ghost predicate FromBelow(parents: seq<Core>, off: nat, n: nat, r: Result<seq<byte>>) {
    match r
    case Ok(b) => |b| == n && forall p | off <= p < off + n :: ByteUnder(parents, p) == Some(b[p - off])
    case Err(_) => exists p | off <= p < off + n :: ByteUnder(parents, p) == None
  }

  /** A read within a cluster of status zero gives zeros, whatever is below; within one of status unallocated it gives
      what is below. */
  lemma StatusReads(x: Context, st: State, k: Walk, off: nat, n: nat)
    requires StateOK(x, st) && n > 0 && off + n <= x.h.virtualSize && CacheOK(st.core, k.cache)
    requires Mod(off, x.h.ClusterSize()) + n <= x.h.ClusterSize()
    ensures var s, r := StatusAt(st.core, k, off), ReadAt(Chain(st), st.caches, off, n).Outcome();
            && s.Good?
            && (s.v == StatusZero ==> r == Ok(Zeros(n)))
            && (s.v == StatusUnallocated ==> FromBelow(st.parents, off, n, r))
  {
    hide CacheOK, PureLookup, ReadUnallocated, LookupCluster, ByteUnder, WellFormed, MemoryOK, EntryOf, ZeroEntryBits,
      HoleBits, Mod, SplitVirtual, ReadDecompressedSlice, DevRead;
    StateMeans(x, st);
    StatusLookup(x, st, off);
    StatusCached(st.core, k, off);
    OneChunk(Chain(st), st.caches, off, n);
    LookupCached(st.core, st.caches[0], off);
    var ca := [LookupCluster(st.core, st.caches[0], off).s] + st.caches[1..];
    assert Chain(st)[1..] == st.parents;
    NextCaches(st, ca);
    ReadUnallocatedOK(Chain(st), ca, off, n);
  }

  lemma NextCaches(st: State, ca: seq<Cache>)
    requires CachesOK(Chain(st), st.caches) && |ca| == |st.caches|
    requires ca[1..] == st.caches[1..] && CacheOK(st.core, ca[0])
    ensures CachesOK(Chain(st), ca)
  {
    hide CacheOK;
    forall i | 0 <= i < |ca| ensures CacheOK(Chain(st)[i], ca[i]) {
      if i > 0 { assert ca[i] == ca[1..][i - 1] == st.caches[1..][i - 1]; }
    }
  }
}
