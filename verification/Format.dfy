/** The on-disk format: header, L1 and L2 entries, compressed descriptors, addresses. */
module Format {
  import opened Bytes
  import opened Arith

  type u32 = n: nat | n < 0x1_0000_0000
  type u64 = n: nat | n < 0x1_0000_0000_0000_0000

  /** The cluster sizes the format allows: 512 bytes to 2 MiB. */
  type ClusterBits = b: nat | 9 <= b <= 21 witness 9

  datatype Error =
    | NotQcow2 | UnsupportedVersion | InvalidClusterBits | ShortHeader | ShortL1 | UnalignedTable | BadBackingName
    | Encrypted | ExternalData | ExtendedL2 | UnknownFeature | FlaggedCorrupt | FlaggedDirty
    | L1TableOutside | BackingTooDeep | NameTooLong | NameHasNul | NoSuchFile
    | ReadOnly | OutOfBounds | OffsetOverflow | Io | Decompress | UnknownCompression
    | L1Index | L1Reserved | L1Unaligned | L1Outside | L2Reserved | L2Unaligned | L2Outside | CompressedOutside
    | WideRefcounts | NoRefcountTable | RefcountTableOutside | HeaderFree | TableFull
    | PastCoverage | BlockAbsent | ZeroRefcount

  datatype Result<+T> = Ok(value: T) | Err(error: Error) {
    predicate IsFailure() { Err? }
    function PropagateFailure<U>(): Result<U> requires Err? { Err(error) }
    function Extract(): T requires Ok? { value }
  }

  datatype Header = Header(
    version: u32, clusterBits: ClusterBits, virtualSize: u64, cryptMethod: u32,
    l1Size: u32, l1TableOffset: u64, refcountTableOffset: u64, refcountTableClusters: u32,
    nbSnapshots: u32, snapshotsOffset: u64, backingFileOffset: u64, backingFileSize: u32,
    incompatibleFeatures: u64, compatibleFeatures: u64, autoclearFeatures: u64,
    refcountOrder: u32, headerLength: u32, compressionType: byte)
  {
    function ClusterSize(): (cs: nat)
      ensures cs == Pow2(clusterBits)
      ensures 512 <= cs <= 0x20_0000 && cs % 512 == 0
    {
      Pow2Values();
      Pow2Product(clusterBits - 9, 9);
      Pow2Mono(clusterBits - 9, 12);
      Pow2(clusterBits)
    }

    function L2Entries(): (n: nat)
      ensures n >= 64 && 8 * n == ClusterSize()
    {
      ClusterSize() / 8
    }
  }

  function Field(b: seq<byte>, off: nat, n: nat): (v: nat)
    ensures n == 4 ==> v < 0x1_0000_0000
    ensures n == 8 ==> v < 0x1_0000_0000_0000_0000
  {
    Pow256Values();
    if off + n <= |b| then Decode(b[off..off + n]) else 0
  }

  function CeilDiv(a: nat, d: nat): nat
    requires d > 0
  {
    Div(a + d - 1, d)
  }

  const MAGIC: nat := 0x5146_49fb

  function ParseHeader(b: seq<byte>): (r: Result<Header>)
    ensures r.Ok? ==> Addressable(r.value)
  {
    if |b| < 72 then Err(ShortHeader)
    else if Field(b, 0, 4) != MAGIC then Err(NotQcow2)
    else
      var version := Field(b, 4, 4);
      if version != 2 && version != 3 then Err(UnsupportedVersion)
      else if !(9 <= Field(b, 20, 4) <= 21) then Err(InvalidClusterBits)
      else if version == 3 && |b| < 104 then Err(ShortHeader)
      else
        var v3 := version == 3;
        var headerLength := if v3 then Field(b, 100, 4) else 72;
        var h := Header(
          version, Field(b, 20, 4), Field(b, 24, 8), Field(b, 32, 4),
          Field(b, 36, 4), Field(b, 40, 8), Field(b, 48, 8), Field(b, 56, 4),
          Field(b, 60, 4), Field(b, 64, 8), Field(b, 8, 8), Field(b, 16, 4),
          if v3 then Field(b, 72, 8) else 0, if v3 then Field(b, 80, 8) else 0, if v3 then Field(b, 88, 8) else 0,
          if v3 then Field(b, 96, 4) else 4, headerLength,
          if v3 && headerLength > 104 && |b| > 104 then b[104] else 0);
        var cs := h.ClusterSize();
        if h.l1Size < CeilDiv(h.virtualSize, BytesPerL1Entry(h)) then Err(ShortL1)
        else if Mod(h.l1TableOffset, cs) != 0 || Mod(h.refcountTableOffset, cs) != 0 || Mod(h.snapshotsOffset, cs) != 0
        then Err(UnalignedTable)
        else if h.backingFileOffset > cs || h.backingFileSize > cs - h.backingFileOffset then Err(BadBackingName)
        else
          CoverageOf(h);
          Ok(h)
  }

  predicate Feature(h: Header, bit: nat) { Mod(Div(h.incompatibleFeatures, Pow2(bit)), 2) == 1 }

  /** Bits 0 (dirty), 1 (corrupt) and 3 (compression type) are known; bits 2 and 4 are refused by name. */
  function CheckSupported(h: Header): Result<()> {
    if h.cryptMethod != 0 then Err(Encrypted)
    else if h.version < 3 then Ok(())
    else if Feature(h, 2) then Err(ExternalData)
    else if Feature(h, 4) then Err(ExtendedL2)
    else if h.incompatibleFeatures >= 16 then Err(UnknownFeature)
    else if h.compressionType > 1 then Err(UnknownCompression)
    else Ok(())
  }

  function CheckWritable(h: Header): Result<()> {
    if h.version >= 3 && Feature(h, 1) then Err(FlaggedCorrupt)
    else if h.version >= 3 && Feature(h, 0) then Err(FlaggedDirty)
    else Ok(())
  }

  function BytesPerL1Entry(h: Header): (n: nat)
    ensures n > 0
  {
    MulMono(1, h.ClusterSize(), h.L2Entries());
    MulOne(h.L2Entries());
    Mul(h.ClusterSize(), h.L2Entries())
  }

  /** What an accepted header promises every address computation. */
  predicate Addressable(h: Header) {
    && h.virtualSize <= Mul(h.l1Size, BytesPerL1Entry(h))
    && Mod(h.l1TableOffset, h.ClusterSize()) == 0
    && Mod(h.refcountTableOffset, h.ClusterSize()) == 0
    && Mod(h.snapshotsOffset, h.ClusterSize()) == 0
    && (h.version == 2 || h.version == 3)
    && (h.version == 2 ==> h.refcountOrder == 4)
  }

  lemma CoverageOf(h: Header)
    requires h.l1Size >= CeilDiv(h.virtualSize, BytesPerL1Entry(h))
    ensures h.virtualSize <= Mul(h.l1Size, BytesPerL1Entry(h))
  {
    var d := BytesPerL1Entry(h);
    DivMod(h.virtualSize + d - 1, d);
    MulMono(CeilDiv(h.virtualSize, d), h.l1Size, d);
  }

  // ---- addresses ----

  datatype ClusterAddress = ClusterAddress(virtCluster: nat, l1Index: u32, l2Index: u32, offsetInCluster: nat)

  /** The two-level address of a virtual byte; the indices are truncated to 32 bits as the source casts them. */
  function SplitVirtual(h: Header, virt: nat): ClusterAddress {
    var vc := Div(virt, h.ClusterSize());
    ClusterAddress(
      vc, Div(vc, h.L2Entries()) % 0x1_0000_0000, Mod(vc, h.L2Entries()) % 0x1_0000_0000, Mod(virt, h.ClusterSize()))
  }

  /** The virtual byte at offset o of the cluster that L1 entry i and L2 entry j address. */
  function VirtualOffset(h: Header, i: nat, j: nat, o: nat): nat {
    Mul(Mul(i, h.L2Entries()) + j, h.ClusterSize()) + o
  }

  lemma AddressUnique(h: Header, virt: nat, i: nat, j: nat, o: nat)
    requires j < h.L2Entries() && o < h.ClusterSize() && i < 0x1_0000_0000
    ensures virt == VirtualOffset(h, i, j, o) <==>
            && SplitVirtual(h, virt) == ClusterAddress(Mul(i, h.L2Entries()) + j, i, j, o)
  {
    hide Mul, Div, Mod, Pow2;
    var cs, n := h.ClusterSize(), h.L2Entries();
    if virt == VirtualOffset(h, i, j, o) {
      DivModUnique(virt, cs, Mul(i, n) + j, o);
      DivModUnique(Mul(i, n) + j, n, i, j);
    } else {
      DivMod(virt, cs);
    }
  }

  /** Below the virtual size the truncated indices are exact, inside their tables, and recompose to the offset. */
  lemma AddressInRange(h: Header, virt: nat)
    requires Addressable(h) && virt < h.virtualSize
    ensures var a := SplitVirtual(h, virt);
            && a.l1Index < h.l1Size && a.l2Index < h.L2Entries() && a.offsetInCluster < h.ClusterSize()
            && a.l1Index == Div(Div(virt, h.ClusterSize()), h.L2Entries())
            && virt == VirtualOffset(h, a.l1Index, a.l2Index, a.offsetInCluster)
  {
    hide Mul, Div, Mod, Pow2;
    var cs, n := h.ClusterSize(), h.L2Entries();
    MulComm(cs, n);
    MulAssoc(h.l1Size, n, cs);
    DivLess(virt, Mul(h.l1Size, n), cs);
    var vc := Div(virt, cs);
    DivLess(vc, h.l1Size, n);
    DivMod(virt, cs);
    DivMod(vc, n);
  }

  // ---- L1 and L2 entries ----

  const BIT_56: nat := 0x100_0000_0000_0000
  const BIT_62: nat := 0x4000_0000_0000_0000
  const BIT_63: nat := 0x8000_0000_0000_0000

  predicate Copied(e: nat) { e >= BIT_63 }

  predicate Compressed(e: nat) { Mod(Div(e, BIT_62), 2) == 1 }

  predicate ZeroFlag(e: nat) { Mod(e, 2) == 1 }

  /** Bits 9 to 55. */
  function HostOffset(e: nat): nat { Mod(Div(e, 512), 0x8000_0000_0000) * 512 }

  /** Bits 0 to 8 and 56 to 62. */
  predicate L1ReservedBits(e: nat) { Mod(e, 512) != 0 || Mod(Div(e, BIT_56), 128) != 0 }

  /** Bits 1 to 8 and 56 to 61, and bit 0 before version 3. */
  predicate L2ReservedBits(version: nat, e: nat) {
    Mod(Div(e, 2), 256) != 0 || Mod(Div(e, BIT_56), 64) != 0 || (version < 3 && ZeroFlag(e))
  }

  /** The entry that names a cluster with refcount exactly one. */
  function EntryFor(hostOff: nat): (e: u64) {
    DivIsQuotient(hostOff, 512);
    DivIsQuotient(hostOff / 512, 0x8000_0000_0000);
    HostOffset(hostOff) + BIT_63
  }

  lemma Quotients(e: nat)
    ensures Div(e, 512) == e / 512 && Mod(e, 512) == e % 512 && Div(e, BIT_56) == e / BIT_56
    ensures Div(e, BIT_62) == e / BIT_62 && Mod(e, BIT_62) == e % BIT_62 && Div(e, 2) == e / 2 && Mod(e, 2) == e % 2
    ensures Compressed(e) <==> e / BIT_62 % 2 == 1
    ensures HostOffset(e) == e / 512 % 0x8000_0000_0000 * 512
    ensures L1ReservedBits(e) <==> e % 512 != 0 || e / BIT_56 % 128 != 0
    ensures forall v :: L2ReservedBits(v, e) <==> e / 2 % 256 != 0 || e / BIT_56 % 64 != 0 || (v < 3 && e % 2 == 1)
  {
    DivIsQuotient(e, 512);
    DivIsQuotient(e, BIT_56);
    DivIsQuotient(e, BIT_62);
    DivIsQuotient(e, 2);
    DivIsQuotient(e / BIT_62, 2);
    DivIsQuotient(e / 512, 0x8000_0000_0000);
    DivIsQuotient(e / BIT_56, 128);
    DivIsQuotient(e / BIT_56, 64);
    DivIsQuotient(e / 2, 256);
  }

  /** The mask keeps an aligned offset whole and lets nothing into the flag bits, whatever the offset. */
  lemma EntryForFacts(hostOff: nat)
    ensures var e := EntryFor(hostOff);
            && Copied(e) && !Compressed(e) && !ZeroFlag(e) && !L1ReservedBits(e)
            && (forall v :: !L2ReservedBits(v, e)) && HostOffset(e) == HostOffset(hostOff)
    ensures hostOff % 512 == 0 && hostOff < BIT_56 ==> HostOffset(hostOff) == hostOff
  {
    hide Div, Mod;
    var q := hostOff / 512 % 0x8000_0000_0000;
    assert EntryFor(hostOff) == q * 512 + BIT_63 by { Quotients(hostOff); }
    hide EntryFor;
    Quotients(EntryFor(hostOff));
    EntryBits(q);
    Quotients(hostOff);
  }

  lemma EntryBits(q: nat)
    requires q < 0x8000_0000_0000
    ensures var e := q * 512 + BIT_63;
            && e % 512 == 0 && e / 512 % 0x8000_0000_0000 == q && e % 2 == 0 && e / 2 % 256 == 0
            && e / BIT_56 == 128 && e / BIT_62 == 2
  {
    var e := q * 512 + BIT_63;
    assert e / 512 == q + 0x80 * 0x8000_0000_0000;
    assert e / 2 == (q + 0x80 * 0x8000_0000_0000) * 256;
    assert q * 512 < BIT_56;
    assert e / BIT_56 == 128;
  }

  lemma ZeroWord()
    ensures HostOffset(0) == 0 && !Compressed(0) && !ZeroFlag(0) && !L1ReservedBits(0) && !Copied(0)
    ensures forall v :: !L2ReservedBits(v, 0)
  {
    Quotients(0);
  }

  datatype ClusterMap =
    | Unallocated
    | Zero
    | Plain(hostOff: nat, copied: bool)
    | Packed(hostOff: nat, byteLen: nat)

  function CheckedHostOffset(h: Header, imageLen: nat, off: nat, unaligned: Error, outside: Error): Result<nat> {
    if Mod(off, h.ClusterSize()) != 0 then Err(unaligned)
    else if off + h.ClusterSize() > imageLen then Err(outside)
    else Ok(off)
  }

  function L2TableOffset(h: Header, imageLen: nat, l1Entry: nat): Result<Option<nat>> {
    if L1ReservedBits(l1Entry) then Err(L1Reserved)
    else if HostOffset(l1Entry) == 0 then Ok(None)
    else
      var off :- CheckedHostOffset(h, imageLen, HostOffset(l1Entry), L1Unaligned, L1Outside);
      Ok(Some(off))
  }

  /** What an L2 entry says about its cluster. */
  function Classify(h: Header, imageLen: nat, l1Copied: bool, e: nat): Result<ClusterMap> {
    if Compressed(e) then
      var (off, span) := DecodeDescriptor(e, h.clusterBits);
      if off + span > imageLen then Err(CompressedOutside) else Ok(Packed(off, span))
    else if L2ReservedBits(h.version, e) then Err(L2Reserved)
    else if h.version >= 3 && ZeroFlag(e) then Ok(Zero)
    else if HostOffset(e) == 0 then Ok(Unallocated)
    else
      var off :- CheckedHostOffset(h, imageLen, HostOffset(e), L2Unaligned, L2Outside);
      Ok(Plain(off, l1Copied && Copied(e)))
  }

  // ---- compressed descriptors ----

  function OffsetBits(bits: ClusterBits): nat { 62 - (bits - 8) }

  /** Host offset and byte span of a compressed cluster. */
  function DecodeDescriptor(e: nat, bits: ClusterBits): (r: (nat, nat))
    ensures r.1 >= 1
  {
    var d := Mod(e, BIT_62);
    var hostOff := Mod(d, Pow2(OffsetBits(bits)));
    var extraSectors := Div(d, Pow2(OffsetBits(bits)));
    var end := hostOff / 512 * 512 + (extraSectors + 1) * 512;
    (hostOff, end - hostOff)
  }

  /** How many sectors run from the one holding hostOff to the one holding the last payload byte. */
  function SectorsOf(hostOff: nat, len: nat): nat {
    (hostOff % 512 + len + 511) / 512
  }

  predicate DescriptorFits(hostOff: nat, len: nat, bits: ClusterBits) {
    len >= 1 && hostOff < Pow2(OffsetBits(bits)) && SectorsOf(hostOff, len) <= Pow2(bits - 8)
  }

  function EncodeDescriptor(hostOff: nat, len: nat, bits: ClusterBits): nat
    requires DescriptorFits(hostOff, len, bits)
  {
    Mul(SectorsOf(hostOff, len) - 1, Pow2(OffsetBits(bits))) + hostOff + BIT_62
  }

  lemma DescriptorSplit(bits: ClusterBits)
    ensures Mul(Pow2(bits - 8), Pow2(OffsetBits(bits))) == BIT_62
    ensures 256 * Pow2(bits - 8) == Pow2(bits) && Pow2(bits - 8) <= 8192
  {
    Pow2Values();
    Pow2Sum(bits - 8, OffsetBits(bits));
    Pow2Product(8, bits - 8);
    Pow2Mono(bits - 8, 13);
  }

  lemma FlagSplit(d: nat)
    requires d < BIT_62
    ensures Mod(d + BIT_62, BIT_62) == d && Compressed(d + BIT_62) && !Copied(d + BIT_62)
  {
    Quotients(d + BIT_62);
  }

  lemma FlagJoin(e: u64)
    requires Compressed(e) && !Copied(e)
    ensures e == Mod(e, BIT_62) + BIT_62
  {
    Quotients(e);
  }

  lemma SpanArithmetic(off: nat, extra: nat)
    ensures var span := off / 512 * 512 + (extra + 1) * 512 - off; SectorsOf(off, span) == extra + 1
  {}

  lemma SpanCovers(off: nat, len: nat)
    requires len >= 1
    ensures var span := off / 512 * 512 + SectorsOf(off, len) * 512 - off;
            (off + span) % 512 == 0 && len <= span < len + 512
  {}

  /** Decoding an encoded payload gives its offset back, and the shortest sector-ended span that covers it. */
  lemma DescriptorRoundTrip(hostOff: nat, len: nat, bits: ClusterBits)
    requires DescriptorFits(hostOff, len, bits)
    ensures Compressed(EncodeDescriptor(hostOff, len, bits)) && !Copied(EncodeDescriptor(hostOff, len, bits))
    ensures var (off, span) := DecodeDescriptor(EncodeDescriptor(hostOff, len, bits), bits);
            off == hostOff && (off + span) % 512 == 0 && len <= span < len + 512
  {
    hide Mul, Div, Mod, Pow2;
    var p := Pow2(OffsetBits(bits));
    var extra := SectorsOf(hostOff, len) - 1;
    DescriptorSplit(bits);
    MulBound(extra, Pow2(bits - 8), p, hostOff);
    var d := Mul(extra, p) + hostOff;
    FlagSplit(d);
    DivModUnique(d, p, extra, hostOff);
    SpanCovers(hostOff, len);
  }

  /** Whatever the entry, its span is one byte to two clusters and ends below 2^64; and a compressed entry is the
      encoding of what it decodes to. */
  lemma DescriptorBounds(e: u64, bits: ClusterBits)
    ensures var (off, span) := DecodeDescriptor(e, bits);
            && 1 <= span <= 2 * Pow2(bits) && off + span < 0x1_0000_0000_0000_0000
            && DescriptorFits(off, span, bits)
            && (Compressed(e) && !Copied(e) ==> EncodeDescriptor(off, span, bits) == e)
  {
    hide Mul, Div, Mod, Pow2;
    var p, d := Pow2(OffsetBits(bits)), Mod(e, BIT_62);
    DescriptorSplit(bits);
    DivMod(d, p);
    DivLess(d, Pow2(bits - 8), p);
    var off, extra := Mod(d, p), Div(d, p);
    ModLess(d, p);
    SpanArithmetic(off, extra);
    if Compressed(e) && !Copied(e) { FlagJoin(e); }
    assert EncodeDescriptor(off, DecodeDescriptor(e, bits).1, bits) == Mul(extra, p) + off + BIT_62;
  }

  // ---- refcount blocks, of every width the format has ----

  function RefcountBits(h: Header): nat {
    if h.version < 3 then 16 else Pow2(h.refcountOrder)
  }

  predicate Wide16(h: Header) { RefcountBits(h) == 16 }

  function EntriesPerBlock(h: Header): (n: nat)
    ensures n >= 1
    ensures Wide16(h) ==> 2 * n == h.ClusterSize()
  {
    if RefcountBits(h) <= 64 then BlockEntries(h.ClusterSize(), RefcountBits(h)) else 1
  }

  function BlockEntries(cs: nat, bits: nat): (n: nat)
    requires cs >= 512
    ensures n >= 1
    ensures bits == 16 && cs % 512 == 0 ==> 2 * n == cs
  {
    if bits == 64 then cs / 8 else if bits == 32 then cs / 4 else if bits == 16 then cs / 2
    else if bits == 8 then cs else if bits == 4 then cs * 2 else if bits == 2 then cs * 4 else cs * 8
  }

  /** The host cluster that entry e of refcount block b counts. */
  function EntryCluster(h: Header, b: nat, e: nat): nat {
    Mul(b, EntriesPerBlock(h)) + e
  }

  /** Walking blocks and entries, and splitting a cluster index, are inverse. */
  lemma EntryInverse(h: Header, b: nat, e: nat, c: nat)
    requires e < EntriesPerBlock(h)
    ensures EntryCluster(h, b, e) == c <==> Div(c, EntriesPerBlock(h)) == b && Mod(c, EntriesPerBlock(h)) == e
  {
    var n := EntriesPerBlock(h);
    if EntryCluster(h, b, e) == c { DivModUnique(c, n, b, e); }
    DivMod(c, n);
  }

  /** A refcount block that counts its own cluster and the next one once. */
  function FreshBlock(cs: nat): (block: seq<byte>)
    requires cs >= 4
    ensures |block| == cs
  {
    Put(Zeros(cs), 0, Encode(1, 2) + Encode(1, 2))
  }

  // ---- compressed clusters ----

  /** Decompressors the image may call for, as total functions of the payload. */
  datatype Codec = Codec(inflate: seq<byte> -> seq<byte>, unzstd: seq<byte> -> Option<seq<byte>>)

  /** Raw deflate stops after one cluster; a zstd frame has to be one cluster exactly. */
  function Unpack(h: Header, codec: Codec, payload: seq<byte>): (r: Result<seq<byte>>)
    ensures r.Ok? ==> |r.value| == h.ClusterSize()
  {
    if h.compressionType == 0 then
      var out := codec.inflate(payload);
      if |out| >= h.ClusterSize() then Ok(out[..h.ClusterSize()]) else Err(Decompress)
    else if h.compressionType == 1 then
      var out := codec.unzstd(payload);
      if out.Some? && |out.value| == h.ClusterSize() then Ok(out.value) else Err(Decompress)
    else Err(UnknownCompression)
  }
}
