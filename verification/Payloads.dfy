/** What a guest reads in a compressed cluster, from the payload and the decompressor the header names. */
module Payloads {
  import opened Bytes
  import opened Arith
  import opened Format
  import opened Accounting
  import opened Disk
  import opened Images
  import opened Engine
  import opened Safety
  import opened Allocator
  import opened Reading
  import opened Chunks
  import opened Writes

  /** The first image's part of a read within one cluster is one chunk. */
  lemma OneChunk(ch: seq<Core>, ca: seq<Cache>, off: nat, n: nat)
    requires |ch| == |ca| > 0 && n > 0 && off + n <= ch[0].h.virtualSize
    requires Mod(off, ch[0].h.ClusterSize()) + n <= ch[0].h.ClusterSize()
    ensures ReadAt(ch, ca, off, n).Outcome() == ReadChunk(ch, ca, off, n).Outcome()
  {
    hide ReadChunk, Mod;
    var r := ReadChunk(ch, ca, off, n);
    assert ChunkLen(ch[0].h, off, n) == n;
    assert ReadLoop(ch, r.s, off + n, 0) == Good(r.s, []);
    if r.Good? { assert r.v + [] == r.v; }
  }

  /** So is a write within one cluster. */
  lemma OneChunkWrite(st: State, off: nat, buf: seq<byte>)
    requires Paired(st) && buf != [] && off + |buf| <= st.core.h.virtualSize
    requires Mod(off, st.core.h.ClusterSize()) + |buf| <= st.core.h.ClusterSize()
    ensures var w, c := WriteAt(st, true, off, buf), WriteChunk(st, off, buf);
            w.s == c.s && (w.Good? <==> c.Good?) && (w.Bad? ==> w.e == c.e)
  {
    hide WriteChunk, Mod;
    var k := ChunkLen(st.core.h, off, |buf|);
    assert k == |buf| && buf[..k] == buf && buf[k..] == [];
    var w := WriteChunk(st, off, buf);
    assert WriteLoop(w.s, off + k, buf[k..]) == Good(w.s, ());
  }

  /** Raw deflate output is taken up to one cluster; a zstd frame has to be one cluster exactly. */
  ghost function Inflated(x: Context, payload: seq<byte>): Option<seq<byte>> {
    var cs := x.h.ClusterSize();
    if x.h.compressionType == 0 && |x.codec.inflate(payload)| >= cs then Some(x.codec.inflate(payload)[..cs])
    else if x.h.compressionType == 1 then
      match x.codec.unzstd(payload)
      case Some(b) => if |b| == cs then Some(b) else None
      case None => None
    else None
  }

  function WhyNot(h: Header): Error { if h.compressionType <= 1 then Decompress else UnknownCompression }

  /** Bit 62 of the entry says compressed. */
  predicate PackedWord(w: nat) { w / 0x4000_0000_0000_0000 % 2 == 1 }

  /** The payload a compressed entry names on a device. */
  function PayloadOf(h: Header, m: seq<byte>, w: nat): seq<byte> {
    var (off, span) := DecodeDescriptor(w, h.clusterBits);
    Slice(m, off, span)
  }

  lemma PackedLookup(x: Context, st: State, r: Slot, off: nat)
    requires StateOK(x, st) && r.Data? && Addresses(x.h, off, r) && ValidSlot(x, r)
    requires PackedWord(SlotWord(x, D(st.core), r))
    ensures var (o, span) := DecodeDescriptor(SlotWord(x, D(st.core), r), x.h.clusterBits);
            PureLookup(st.core, off) == Ok(Packed(o, span)) && o + span <= |st.core.dev|
  {
    hide SlotWord, WellFormed, MemoryOK, CacheOK, ByteUnder, DecodeDescriptor, Copied, PureLookup, L2ReservedBits,
      ZeroFlag, HostOffset, Cl;
    StateMeans(x, st);
    Quotients(SlotWord(x, D(st.core), r));
    LookupSlot(x, st.core, off, r);
    DeviceHolds(x, st.core);
  }

  lemma DeviceHolds(x: Context, c: Core)
    requires CoreOK(x, c)
    ensures c.imageLen <= |c.dev|
  {
    hide WellFormed, MemoryOK;
  }

  /** A read within a compressed cluster gives those bytes of the decompressed payload, and is refused
      exactly when the payload does not decompress to a cluster; whatever the caches hold. */
  lemma CompressedRead(x: Context, st: State, r: Slot, off: nat, n: nat)
    requires StateOK(x, st) && r.Data? && Addresses(x.h, off, r) && ValidSlot(x, r)
    requires n > 0 && off + n <= x.h.virtualSize && Mod(off, x.h.ClusterSize()) + n <= x.h.ClusterSize()
    requires PackedWord(SlotWord(x, D(st.core), r))
    ensures var out := Inflated(x, PayloadOf(x.h, st.core.dev, SlotWord(x, D(st.core), r)));
            var o := Mod(off, x.h.ClusterSize());
            && ReadAt(Chain(st), st.caches, off, n).Outcome()
            == if out.Some? then Ok(out.value[o..o + n]) else Err(WhyNot(x.h))
  {
    hide SlotWord, WellFormed, MemoryOK, ByteUnder, DecodeDescriptor, PureLookup, LookupCluster, CacheOK, Cl, Mod, Div,
      ReadDecompressedSlice, ReadUnallocated, SplitVirtual;
    StateMeans(x, st);
    PackedLookup(x, st, r, off);
    OneChunk(Chain(st), st.caches, off, n);
    LookupCached(st.core, st.caches[0], off);
    var (o, span) := DecodeDescriptor(SlotWord(x, D(st.core), r), x.h.clusterBits);
    var ca := LookupCluster(st.core, st.caches[0], off).s;
    UnpackChunk(st.core, ca, off, n, o, span);
    SplitParts(x.h, off);
    Unpacked(x, st.core, SlotWord(x, D(st.core), r));
  }

  lemma SplitParts(h: Header, v: nat)
    ensures SplitVirtual(h, v).virtCluster == Div(v, h.ClusterSize())
    ensures SplitVirtual(h, v).offsetInCluster == Mod(v, h.ClusterSize())
  {
    hide Div, Mod;
  }

  lemma Unpacked(x: Context, c: Core, w: nat)
    requires c.h == x.h && c.codec == x.codec
    requires var (o, span) := DecodeDescriptor(w, x.h.clusterBits); o + span <= |c.dev|
    ensures var (o, span) := DecodeDescriptor(w, x.h.clusterBits);
            var out := Inflated(x, PayloadOf(x.h, c.dev, w));
            PureUnpack(c, o, span) == if out.Some? then Ok(out.value) else Err(WhyNot(x.h))
  {
    hide DecodeDescriptor;
  }
}
