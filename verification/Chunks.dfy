/** Writing within one guest cluster. */
module Chunks {
  import opened Bytes
  import opened Arith
  import opened Format
  import opened Accounting
  import opened Disk
  import opened DiskSteps
  import opened Images
  import opened Bridge
  import opened Engine
  import opened Safety
  import opened Scanning
  import opened Allocator
  import opened Refcounts
  import opened Tables
  import opened Publishing
  import opened Reading

  ghost function Chain(st: State): seq<Core> { [st.core] + st.parents }

  /** A well-formed image with sound memory, caches that tell the truth, and the context's view of its parents. */
  ghost predicate StateOK(x: Context, st: State) {
    && Paired(st) && CoreOK(x, st.core) && CachesOK(Chain(st), st.caches)
    && forall v: nat :: x.under(v) == ByteUnder(st.parents, v)
  }

  ghost predicate Addresses(h: Header, v: nat, r: Slot)
    requires r.Data?
  {
    var a := SplitVirtual(h, v);
    r.k == 0 && a.l1Index == r.i && a.l2Index == r.j
  }

  /** What a lookup finds for the cluster that r describes. */
  ghost function MapOf(x: Context, c: Core, r: Slot): Result<ClusterMap>
    requires ValidSlot(x, r) && r.Data? && r.k == 0
  {
    Classify(x.h, c.imageLen, Copied(SlotWord(x, D(c), Table(0, r.i))), SlotWord(x, D(c), r))
  }

  lemma ClassifyTrust(h: Header, len: nat, w: nat)
    ensures Classify(h, len, false, w).Ok? <==> Classify(h, len, true, w).Ok?
  {
    hide Compressed, DecodeDescriptor, L2ReservedBits, ZeroFlag, HostOffset, Copied, Mod;
  }

  /** A lookup on a well-formed image reads the words of the slots, and is never refused. */
  lemma LookupSlot(x: Context, c: Core, v: nat, r: Slot)
    requires CoreOK(x, c) && r.Data? && Addresses(x.h, v, r) && ValidSlot(x, r)
    ensures PureLookup(c, v) == MapOf(x, c, r) && MapOf(x, c, r).Ok?
  {
    hide SlotWord, CountOf, Content, Inv, Mul, Div, Mod, RootIs, FullBetween, MetaOf, HostOffset, ClustersOf, Copied,
      Classify, L1ReservedBits, SplitVirtual, Word, Legal, L2TableOffset, Cl;
    assert ValidSlot(x, Table(0, r.i));
    EntryLegal(x, D(c), c.imageLen, r);
    ClassifyTrust(x.h, c.imageLen, SlotWord(x, D(c), r));
    if HostOffset(SlotWord(x, D(c), Table(0, r.i))) == 0 {
      EmptyEntry(x, D(c), c.imageLen, r.i);
      ZeroEntry(x, D(c), r, c.imageLen, Copied(SlotWord(x, D(c), Table(0, r.i))));
    } else {
      TableThere(x, D(c), c.imageLen, r.i);
      ReadWhole(c.h, c.dev, Div(HostOffset(SlotWord(x, D(c), Table(0, r.i))), x.h.ClusterSize()));
    }
  }

  lemma EntryLegal(x: Context, d: Clusters, len: nat, r: Slot)
    requires Legal(x, d, len) && ValidSlot(x, r) && r.Data?
    ensures Classify(x.h, len, false, SlotWord(x, d, r)).Ok?
  {
    hide Classify, SlotWord;
    assert LegalWord(x.h, r, SlotWord(x, d, r), len);
  }

  lemma ZeroEntry(x: Context, d: Clusters, r: Slot, len: nat, trusted: bool)
    requires ValidSlot(x, r) && r.Data? && HostOffset(SlotWord(x, d, Table(r.k, r.i))) == 0
    ensures SlotWord(x, d, r) == 0 && Classify(x.h, len, trusted, 0) == Ok(Unallocated)
  {
    hide HostOffset, Compressed, L2ReservedBits, ZeroFlag, Copied;
    ZeroWord();
  }

  /** The whole meaning of a mapping: who is named, and what the guest reads. */
  ghost predicate Means(x: Context, c: Core, r: Slot, m: ClusterMap)
    requires c.h == x.h && ValidSlot(x, r) && r.Data? && r.k == 0
  {
    var d, cs, w := D(c), x.h.ClusterSize(), SlotWord(x, D(c), r);
    match m
    case Plain(host, copied) =>
      && var k := Div(host, cs);
      && host == Mul(k, cs) && Fits(x.h, k, c.imageLen)
      && RefOf(x, d, r) == One(k, Copied(w)) && (copied ==> Copied(w))
      && !Compressed(w) && !(x.h.version >= 3 && ZeroFlag(w)) && HostOffset(w) == host != 0
    case Packed(off, span) =>
      && Compressed(w) && (off, span) == DecodeDescriptor(w, x.h.clusterBits) && off + span <= c.imageLen
      && Touches(RefOf(x, d, r), Div(off, cs))
    case Zero => !Compressed(w) && x.h.version >= 3 && ZeroFlag(w)
    case Unallocated => !Compressed(w) && !(x.h.version >= 3 && ZeroFlag(w)) && HostOffset(w) == 0
  }

  lemma MapMeans(x: Context, c: Core, r: Slot)
    requires c.h == x.h && ValidSlot(x, r) && r.Data? && r.k == 0 && MapOf(x, c, r).Ok?
    ensures Means(x, c, r, MapOf(x, c, r).value)
  {
    hide SlotWord, HostOffset, Compressed, ZeroFlag, Copied, L2ReservedBits, Mul, Div, Mod, DecodeDescriptor,
      ClustersOf;
    var m, w := MapOf(x, c, r).value, SlotWord(x, D(c), r);
    if m.Plain? {
      Aligned(m.hostOff, x.h.ClusterSize());
    } else if m.Packed? {
      var (off, span) := DecodeDescriptor(w, x.h.clusterBits);
      DivMono(off, off + span - 1, x.h.ClusterSize());
    }
  }

  // ---- guest bytes are slot contents ----

  lemma PackedContent(x: Context, c: Core, r: Slot, off: nat, span: nat)
    requires CoreOK(x, c) && ValidSlot(x, r) && r.Data? && r.k == 0 && Means(x, c, r, Packed(off, span))
    ensures var u := PureUnpack(c, off, span);
            Content(x, D(c), r) == (if u.Ok? then Known(u.value) else seq(x.h.ClusterSize(), _ => None))
  {
    hide SlotWord, Compressed, DecodeDescriptor, Unpack, ClustersOf, Inv, MetaOf, Legal, Div, Mod, RefOfWord;
    ReadPayload(x.h.ClusterSize(), c.dev, off, span);
  }

  /** What the slow form reads is what the slot holds. */
  lemma GuestByte(x: Context, st: State, r: Slot, v: nat)
    requires StateOK(x, st) && r.Data? && Addresses(x.h, v, r) && ValidSlot(x, r)
    requires Div(v, x.h.ClusterSize()) == Mul(r.i, x.h.L2Entries()) + r.j
    ensures ByteAt(Chain(st), v) == Content(x, D(st.core), r)[Mod(v, x.h.ClusterSize())]
  {
    hide SlotWord, Compressed, DecodeDescriptor, ZeroFlag, Copied, HostOffset, Unpack, Legal, Inv, MetaOf, PureLookup,
      PureUnpack, CachesOK, Mul, Div, Mod, RootIs, FullBetween, RefOfWord, ByteUnder, MapOf, Cl, Classify;
    var c, cs := st.core, x.h.ClusterSize();
    LookupSlot(x, c, v, r);
    MapMeans(x, c, r);
    DivMod(v, cs);
    var m := MapOf(x, c, r).value;
    if m.Packed? {
      PackedContent(x, c, r, m.hostOff, m.byteLen);
    } else if m.Plain? {
      PlainByte(x.h, c.dev, Div(m.hostOff, cs), Mod(v, cs));
    }
  }

  lemma PlainByte(h: Header, m: seq<byte>, k: nat, o: nat)
    requires Fits(h, k, |m|) && o < h.ClusterSize()
    ensures Mul(k, h.ClusterSize()) + o < |m| && At(Cl(h, m), k)[o] == m[Mul(k, h.ClusterSize()) + o]
  {
    hide Mul;
  }

  // ---- the plan ----

  /** The cluster r names may be written through: nothing else names it, in any table of any snapshot. */
  ghost predicate MayWriteThrough(x: Context, c: Core, r: Slot, host: nat)
    requires c.h == x.h && ValidSlot(x, r) && r.Data? && r.k == 0
  {
    && Means(x, c, r, Plain(host, Copied(SlotWord(x, D(c), r))))
    && Sole(x, D(c), r, Div(host, x.h.ClusterSize()))
  }

  /** The cluster is written through only when it is private; a share is dropped only of a cluster r names. */
  lemma PlanOK(x: Context, c: Core, r: Slot, m: ClusterMap)
    requires CoreOK(x, c) && r.Data? && r.k == 0 && ValidSlot(x, r) && MapOf(x, c, r) == Ok(m)
    ensures var p := PlanWrite(c, m);
            && (p.Ok? && p.value.InPlace? ==>
                  m.Plain? && m.hostOff == p.value.hostOff && MayWriteThrough(x, c, r, m.hostOff))
            && (p.Ok? && p.value.Reallocate? && p.value.release.Some? ==>
                  Touches(RefOf(x, D(c), r), Div(p.value.release.value, x.h.ClusterSize())))
  {
    hide SlotWord, CountOf, Content, Legal, Mul, Div, Mod, RootIs, FullBetween, HostOffset, Compressed, ZeroFlag,
      ClustersOf, Classify, ReadRefcount, DecodeDescriptor, Sole;
    MapMeans(x, c, r);
    if m.Plain? {
      var k := Div(m.hostOff, x.h.ClusterSize());
      ReadRefcountOK(x, c, m.hostOff);
      CopiedIsOne(x, D(c), r, k);
      if CountOf(x, D(c), k) <= 1 { CountedOnceAlone(x, D(c), r, k); }
    }
  }

  lemma CopiedIsOne(x: Context, d: Clusters, r: Slot, k: nat)
    requires CopiedMeansOne(MetaOf(x, d)) && ValidSlot(x, r) && r.Data? && r.k == 0
    ensures RefOf(x, d, r) == One(k, true) ==> CountOf(x, d, k) == 1
  {
    hide SlotWord, CountOf;
    assert r in MetaOf(x, d).refs && MetaOf(x, d).refs[r] == RefOf(x, d, r);
  }

  // ---- the seed ----

  ghost predicate Seeds(x: Context, st: State, r: Slot, seed: Seed)
    requires st.core.h == x.h && ValidSlot(x, r) && r.Data? && r.k == 0
  {
    match seed
    case SeedZeros => Means(x, st.core, r, Zero)
    case SeedBacking => Means(x, st.core, r, Unallocated)
    case SeedHost(host) => Means(x, st.core, r, Plain(host, false))
    case SeedPacked(off, span) => Means(x, st.core, r, Packed(off, span))
  }

  lemma PlanSeeds(x: Context, st: State, r: Slot, m: ClusterMap)
    requires StateOK(x, st) && r.Data? && r.k == 0 && ValidSlot(x, r) && MapOf(x, st.core, r) == Ok(m)
    ensures var p := PlanWrite(st.core, m);
            p.Ok? && p.value.Reallocate? ==> Seeds(x, st, r, p.value.seed)
  {
    hide SlotWord, Mul, Div, Mod, HostOffset, Compressed, ZeroFlag, ReadRefcount, DecodeDescriptor, Classify,
      WellFormed, MemoryOK, CachesOK, ByteUnder;
    MapMeans(x, st.core, r);
  }

  ghost predicate Unknown(v: seq<Option<byte>>) { exists o :: 0 <= o < |v| && v[o] == None }

  /** A seed is the guest's own view of the whole cluster, byte for byte; it fails only where that view is an error. */
  lemma SeedOK(x: Context, st: State, r: Slot, v: nat, seed: Seed)
    requires StateOK(x, st) && r.Data? && Addresses(x.h, v, r) && ValidSlot(x, r) && Seeds(x, st, r, seed)
    requires Div(v, x.h.ClusterSize()) == Mul(r.i, x.h.L2Entries()) + r.j
    ensures var s := SeedCluster(Chain(st), st.caches, v, seed);
            && CachesOK(Chain(st), s.s)
            && (s.Good? ==> |s.v| == x.h.ClusterSize() && Content(x, D(st.core), r) == Known(s.v))
            && (s.Bad? ==> Unknown(Content(x, D(st.core), r)))
  {
    hide SlotWord, Compressed, DecodeDescriptor, ZeroFlag, Copied, HostOffset, Legal, Inv, MetaOf, PureLookup,
      PureUnpack, CacheOK, Mul, Div, Mod, RootIs, FullBetween, RefOfWord, ByteUnder, MapOf, Cl, Classify,
      ReadDecompressedSlice, ReadUnallocated, WellFormed, MemoryOK, DecodeDescriptor;
    var c, cs := st.core, x.h.ClusterSize();
    match seed
    case SeedZeros =>
    case SeedHost(host) => ReadWhole(c.h, c.dev, Div(host, cs));
    case SeedPacked(off, span) => SeedPackedOK(x, st, r, v, off, span);
    case SeedBacking => SeedBackingOK(x, st, r, v);
  }

  lemma SeedPackedOK(x: Context, st: State, r: Slot, v: nat, off: nat, span: nat)
    requires StateOK(x, st) && r.Data? && Addresses(x.h, v, r) && ValidSlot(x, r)
    requires Means(x, st.core, r, Packed(off, span))
    ensures var s := SeedCluster(Chain(st), st.caches, v, SeedPacked(off, span));
            && CachesOK(Chain(st), s.s)
            && (s.Good? ==> |s.v| == x.h.ClusterSize() && Content(x, D(st.core), r) == Known(s.v))
            && (s.Bad? ==> Unknown(Content(x, D(st.core), r)))
  {
    hide SlotWord, Compressed, ZeroFlag, Copied, HostOffset, Legal, Inv, MetaOf, PureLookup, PureUnpack, CacheOK, Mul,
      Div, Mod, RootIs, FullBetween, RefOfWord, ByteUnder, ReadDecompressedSlice, Content, L2ReservedBits;
    var c, cs := st.core, x.h.ClusterSize();
    LookupSlot(x, c, v, r);
    PackedContent(x, c, r, off, span);
    var vc := Div(v, cs);
    MulDiv(vc, cs);
    SameCluster(c, Mul(vc, cs), v);
    UnpackCached(c, st.caches[0], vc, off, span, 0, cs);
    var u := PureUnpack(c, off, span);
    assert u.Ok? ==> u.value[0..cs] == u.value;
    assert u.Err? ==> Content(x, D(c), r)[0] == None;
  }

  lemma BackingContent(x: Context, c: Core, r: Slot, base: nat)
    requires c.h == x.h && ValidSlot(x, r) && r.Data? && r.k == 0 && Means(x, c, r, Unallocated)
    requires base == Mul(Mul(r.i, x.h.L2Entries()) + r.j, x.h.ClusterSize())
    ensures forall o: nat :: o < x.h.ClusterSize() ==> Content(x, D(c), r)[o] == x.under(base + o)
  {
    hide SlotWord, Compressed, ZeroFlag, HostOffset, Mul, Div, Mod, DecodeDescriptor, Unpack, Payload, ClustersOf;
  }

  lemma SeedBackingOK(x: Context, st: State, r: Slot, v: nat)
    requires StateOK(x, st) && r.Data? && Addresses(x.h, v, r) && ValidSlot(x, r)
    requires Means(x, st.core, r, Unallocated)
    requires Div(v, x.h.ClusterSize()) == Mul(r.i, x.h.L2Entries()) + r.j
    ensures var s := SeedCluster(Chain(st), st.caches, v, SeedBacking);
            && CachesOK(Chain(st), s.s)
            && (s.Good? ==> |s.v| == x.h.ClusterSize() && Content(x, D(st.core), r) == Known(s.v))
            && (s.Bad? ==> Unknown(Content(x, D(st.core), r)))
  {
    hide SlotWord, Compressed, ZeroFlag, Copied, HostOffset, WellFormed, MemoryOK, CacheOK, Mul, Div, Mod, ByteUnder,
      ReadUnallocated, Content, Means, Cl, SplitVirtual;
    var cs := x.h.ClusterSize();
    var base := Mul(Div(v, cs), cs);
    ReadUnallocatedOK(Chain(st), st.caches, base, cs);
    var s := ReadUnallocated(Chain(st), st.caches, base, cs);
    var view := Content(x, D(st.core), r);
    assert Chain(st)[1..] == st.parents;
    BackingContent(x, st.core, r, base);
    assert forall o: nat :: o < cs ==> view[o] == ByteUnder(st.parents, base + o);
    if s.Good? {
      assert forall o: nat :: o < cs ==> view[o] == Some(s.v[o]);
      assert view == Known(s.v);
    } else {
      var p :| base <= p < base + cs && ByteUnder(st.parents, p) == None;
      assert view[p - base] == None;
    }
  }

  // ---- writing through ----

  ghost predicate Mixed(a: seq<Option<byte>>, b: seq<Option<byte>>, v: seq<Option<byte>>) {
    |a| == |b| == |v| && forall o :: 0 <= o < |v| ==> v[o] == a[o] || v[o] == b[o]
  }

  /** Every crash between c and c' leaves a well-formed image in which only r's cluster can differ from c. That
      cluster reads wholly as before or wholly as after, unless its L2 entry stayed and it was written through:
      then each of its bytes does. */
  ghost predicate ChunkCrash(x: Context, c: Core, c': Core, r: Slot)
    requires c.h == x.h && c'.h == x.h && ValidSlot(x, r) && r.Data?
  {
    forall n, m | |c.log| <= n < |c'.log| && CrashImage(c'.log[n], m) :: ChunkImage(x, D(c), D(c'), r, m)
  }

  ghost predicate ChunkImage(x: Context, d: Clusters, d': Clusters, r: Slot, m: seq<byte>)
    requires ValidSlot(x, r) && r.Data? && Whole(x.h.ClusterSize(), d) && Whole(x.h.ClusterSize(), d')
  {
    && WellFormed(x, Cl(x.h, m), |m|)
    && SameContentsBut(x, d, Cl(x.h, m), r)
    && var v := Content(x, Cl(x.h, m), r);
    && Mixed(Content(x, d, r), Content(x, d', r), v)
    && (SlotWord(x, d', r) != SlotWord(x, d, r) ==> v == Content(x, d, r) || v == Content(x, d', r))
  }

  /** The outcome of a chunk that went through. */
  ghost predicate ChunkDone(x: Context, c: Core, c': Core, r: Slot, o: nat, src: seq<byte>)
    requires c.h == x.h && ValidSlot(x, r) && r.Data? && o + |src| <= x.h.ClusterSize()
  {
    && Extends(c, c') && CoreOK(x, c') && ChunkCrash(x, c, c', r)
    && SameContentsBut(x, D(c), D(c'), r)
    && Content(x, D(c'), r) == Put(Content(x, D(c), r), o, Known(src))
    && KeepsOtherData(x, D(c), D(c'), r)
    && (SlotWord(x, D(c'), r) == SlotWord(x, D(c), r) || NewEntry(SlotWord(x, D(c'), r)))
    && forall y: nat :: Slack(MetaOf(x, D(c')), y)
                     == Slack(MetaOf(x, D(c)), y) + Bit(Forgotten(x.h, SlotWord(x, D(c), r), y))
  }

  /** The host clusters an overwritten L2 entry named that the writer does not release: those a compressed span
      reaches after its first, and the one a zero-flagged entry still carries. */
  ghost predicate Forgotten(h: Header, w: nat, y: nat) {
    if Compressed(w) then
      var (off, span) := DecodeDescriptor(w, h.clusterBits);
      Div(off, h.ClusterSize()) < y <= Div(off + span - 1, h.ClusterSize())
    else h.version >= 3 && ZeroFlag(w) && HostOffset(w) != 0 && y == Div(HostOffset(w), h.ClusterSize())
  }

  lemma KnownPut(a: seq<byte>, o: nat, src: seq<byte>)
    requires o + |src| <= |a|
    ensures Known(Put(a, o, src)) == Put(Known(a), o, Known(src))
  {}

  lemma PlainContent(x: Context, d: Clusters, r: Slot, k: nat)
    requires ValidSlot(x, r) && r.Data? && Whole(x.h.ClusterSize(), d)
    requires var w := SlotWord(x, d, r);
             && !Compressed(w) && !(x.h.version >= 3 && ZeroFlag(w)) && HostOffset(w) != 0
             && Div(HostOffset(w), x.h.ClusterSize()) == k
    ensures Content(x, d, r) == Known(At(d, k))
  {
    hide SlotWord, Compressed, ZeroFlag, HostOffset, Div;
  }

  /** Any content that replaces a private cluster's, whole or torn. */
  lemma ThroughImage(x: Context, c: Core, r: Slot, host: nat, o: nat, n: nat, m: seq<byte>)
    requires DeviceOK(x, c) && ValidSlot(x, r) && r.Data? && r.k == 0 && MayWriteThrough(x, c, r, host)
    requires o + n <= x.h.ClusterSize() && DiffersIn(x.h.ClusterSize(), c.dev, m, Div(host, x.h.ClusterSize()), o, n)
    ensures WellFormed(x, Cl(x.h, m), c.imageLen) && MetaOf(x, Cl(x.h, m)) == MetaOf(x, D(c))
    ensures SameWords(x, D(c), Cl(x.h, m)) && SameContentsBut(x, D(c), Cl(x.h, m), r)
    ensures Content(x, Cl(x.h, m), r) == Known(ClusterOf(x.h.ClusterSize(), m, Div(host, x.h.ClusterSize())))
    ensures Content(x, D(c), r) == Known(ClusterOf(x.h.ClusterSize(), c.dev, Div(host, x.h.ClusterSize())))
  {
    hide SlotWord, Compressed, ZeroFlag, HostOffset, Div, Mul, Legal, Inv, MetaOf, Content, Sole, RefOf, ClusterOf,
      Copied;
    var cs := x.h.ClusterSize();
    var k := Div(host, cs);
    OneCluster(cs, c.dev, m, k, o, n);
    FillPrivate(x, D(c), c.imageLen, r, k, ClusterOf(cs, m, k));
    WordKept(x, D(c), Cl(x.h, m), r);
    PlainContent(x, D(c), r, k);
    PlainContent(x, Cl(x.h, m), r, k);
  }

  lemma InPlaceCrash(x: Context, c: Core, c': Core, r: Slot, host: nat, o: nat, src: seq<byte>, m: seq<byte>)
    requires DeviceOK(x, c) && ValidSlot(x, r) && r.Data? && r.k == 0 && MayWriteThrough(x, c, r, host)
    requires o + |src| <= x.h.ClusterSize() && host + o + |src| <= |c.dev|
    requires c'.h == c.h && c'.dev == Put(c.dev, host + o, src)
    requires CrashImage(Patch(c.dev, host + o, src), m)
    ensures ChunkImage(x, D(c), D(c'), r, m)
  {
    hide SlotWord, Compressed, ZeroFlag, HostOffset, Div, Mul, WellFormed, MetaOf, Content, Sole, RefOf, Copied,
      SameContentsBut, ClustersOf, OneSector, ValidSlot;
    var cs := x.h.ClusterSize();
    var k := Div(host, cs);
    PutDiffers(cs, c.dev, k, o, src);
    ThroughImage(x, c, r, host, o, |src|, c'.dev);
    ThroughImage(x, c, r, host, o, |src|, m);
    WordKept(x, D(c), D(c'), r);
    ImageGrows(x, Cl(x.h, m), c.imageLen, |m|);
  }

  lemma ImageGrows(x: Context, d: Clusters, len: nat, len': nat)
    requires WellFormed(x, d, len) && len <= len'
    ensures WellFormed(x, d, len')
  {
    LegalGrows(x, d, len, len');
  }

  /** Writing through a private cluster. */
  lemma InPlaceOK(x: Context, c: Core, r: Slot, host: nat, o: nat, src: seq<byte>)
    requires CoreOK(x, c) && ValidSlot(x, r) && r.Data? && r.k == 0 && MayWriteThrough(x, c, r, host)
    requires o + |src| <= x.h.ClusterSize()
    ensures var w := DevWrite(c, host + o, src);
            w.Good? && ChunkDone(x, c, w.s, r, o, src) && w.s.l1 == c.l1
  {
    hide SlotWord, Compressed, ZeroFlag, HostOffset, Div, Mul, WellFormed, MetaOf, Content, Sole, RefOf, Copied,
      SameContentsBut, ClustersOf, ChunkImage, Slack, RootIs, FullBetween, CountOf, Legal, Slots, Users, Inv;
    var cs := x.h.ClusterSize();
    var k := Div(host, cs);
    var c' := DevWrite(c, host + o, src).s;
    PutDiffers(cs, c.dev, k, o, src);
    ThroughImage(x, c, r, host, o, |src|, c'.dev);
    KnownPut(ClusterOf(cs, c.dev, k), o, src);
    ImageGrows(x, D(c'), c.imageLen, c'.imageLen);
    SameMetaCounts(x, D(c), D(c'));
    FillMemory(x, c, c');
    WordKept(x, D(c), D(c'), r);
    forall s | ValidSlot(x, s) && s.Data? && s != r ensures SlotWord(x, D(c'), s) == SlotWord(x, D(c), s) {
      WordKept(x, D(c), D(c'), s);
    }
    forall n, m | |c.log| <= n < |c'.log| && CrashImage(c'.log[n], m) ensures ChunkImage(x, D(c), D(c'), r, m) {
      InPlaceCrash(x, c, c', r, host, o, src, m);
    }
  }
}
