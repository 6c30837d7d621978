/** Writes to a plain cluster, by its refcount: straight to the cluster when nothing else names it, whatever the flags,
    and to a new one when something does. */
module InPlaceWrites {
  import opened Bytes
  import opened Arith
  import opened Format
  import opened Accounting
  import opened Disk
  import opened DiskSteps
  import opened Images
  import opened Engine
  import opened Bridge
  import opened Safety
  import opened Allocator
  import opened Refcounts
  import opened Tables
  import opened Publishing
  import opened Reading
  import opened Chunks
  import opened Writes
  import opened Spans
  import opened Payloads
  import opened Statuses
  import opened Widths

  /** The entry names a plain host cluster: uncompressed, no zero flag, a host offset. */
  predicate PlainWord(h: Header, w: nat) { !PackedWord(w) && !ZeroEntryBits(h, w) && OffsetField(w) != 0 }

  /** A range inside one guest cluster, whose entry is that of a plain cluster. */
  ghost predicate OnePlain(x: Context, st: State, off: nat, buf: seq<byte>) {
    && StateOK(x, st) && st.core.h == x.h && buf != [] && off + |buf| <= x.h.virtualSize
    && Mod(off, x.h.ClusterSize()) + |buf| <= x.h.ClusterSize()
    && ValidSlot(x, SlotOf(x.h, off)) && PlainWord(x.h, SlotWord(x, D(st.core), SlotOf(x.h, off)))
  }

  /** Where the host cluster of off's entry is. */
  ghost function HostOf(x: Context, c: Core, off: nat): nat
    requires ValidSlot(x, SlotOf(x.h, off))
  {
    OffsetField(SlotWord(x, D(c), SlotOf(x.h, off)))
  }

  lemma PlainLookup(x: Context, st: State, off: nat, buf: seq<byte>)
    requires OnePlain(x, st, off, buf)
    ensures var m, r := PureLookup(st.core, off), SlotOf(x.h, off);
            && MapOf(x, st.core, r) == m && m.Ok? && m.value.Plain? && m.value.hostOff == HostOf(x, st.core, off)
            && Means(x, st.core, r, m.value) && Addresses(x.h, off, r)
            && Div(off, x.h.ClusterSize()) == Mul(r.i, x.h.L2Entries()) + r.j
  {
    hide SlotWord, WellFormed, MemoryOK, CacheOK, ByteUnder, DecodeDescriptor, Copied, PureLookup, MapOf, Div, Mod,
      HostOffset, Compressed, ZeroFlag, Cl, SplitVirtual, Base;
    HeaderOK(x, st);
    StateMeans(x, st);
    SlotOfCursor(x, off);
    var r := SlotOf(x.h, off);
    LookupSlot(x, st.core, off, r);
    MapMeans(x, st.core, r);
    Quotients(SlotWord(x, D(st.core), r));
    FlagBit(SlotWord(x, D(st.core), r));
  }

  /** The refcount of a cluster that r names can be read where the width is sixteen bits. */
  lemma CountRead(x: Context, c: Core, r: Slot, host: nat)
    requires CoreOK(x, c) && ValidSlot(x, r) && Touches(RefOf(x, D(c), r), Div(host, x.h.ClusterSize()))
    requires SixteenBit(x.h)
    ensures ReadRefcount(c, host) == Ok(CountOf(x, D(c), Div(host, x.h.ClusterSize())))
  {
    hide SlotWord, CountOf, Legal, Inv, MemoryOK, ReadRefcount, Cl, Div, Touches, RefOf;
    WideMeans(x.h);
    NamedCounted(x, D(c), c.imageLen, r, Div(host, x.h.ClusterSize()));
    CountedHasRoot(x, D(c), c.imageLen, Div(host, x.h.ClusterSize()));
    ReadRefcountOK(x, c, host);
  }

  lemma NamedCounted(x: Context, d: Clusters, len: nat, r: Slot, k: nat)
    requires WellFormed(x, d, len) && ValidSlot(x, r) && Touches(RefOf(x, d, r), k)
    ensures CountOf(x, d, k) > 0
  {
    hide SlotWord, CountOf, Legal, Touches;
    var m := MetaOf(x, d);
    assert r in m.refs && m.refs[r] == RefOf(x, d, r);
    UserCounted(m, r, k);
    assert Count(m, k) >= |Users(m, k)|;
  }

  lemma PlainNames(x: Context, c: Core, r: Slot, m: ClusterMap)
    requires c.h == x.h && ValidSlot(x, r) && r.Data? && r.k == 0 && m.Plain? && Means(x, c, r, m)
    ensures RefOf(x, D(c), r) == One(Div(m.hostOff, x.h.ClusterSize()), Copied(SlotWord(x, D(c), r)))
    ensures m.copied ==> Copied(SlotWord(x, D(c), r))
  {
    hide SlotWord, RefOf, Copied, HostOffset, Compressed, ZeroFlag, Cl, Div, Mul;
  }

  lemma CopiedCount(x: Context, c: Core, r: Slot, k: nat)
    requires CoreOK(x, c) && ValidSlot(x, r) && r.Data? && r.k == 0
    ensures RefOf(x, D(c), r) == One(k, true) ==> CountOf(x, D(c), k) == 1
  {
    hide SlotWord, CountOf, RefOf, Legal, MemoryOK, Cl;
    CopiedIsOne(x, D(c), r, k);
  }

  lemma CountedOnce(x: Context, c: Core, r: Slot, k: nat)
    requires CoreOK(x, c) && ValidSlot(x, r) && Touches(RefOf(x, D(c), r), k)
    ensures CountOf(x, D(c), k) >= 1
  {
    hide SlotWord, CountOf, RefOf, MemoryOK, Cl, WellFormed;
    NamedCounted(x, D(c), c.imageLen, r, k);
  }

  /** The plan, by the refcount alone. */
  ghost predicate PlannedBy(n: nat, host: nat, p: Result<Plan>) {
    && n >= 1
    && (n == 1 ==> p == Ok(InPlace(host)))
    && (n > 1 ==> p == Ok(Reallocate(SeedHost(host), Some(host))))
  }

  lemma PlanByCount(x: Context, c: Core, r: Slot, m: ClusterMap)
    requires CoreOK(x, c) && c.h == x.h && ValidSlot(x, r) && r.Data? && r.k == 0 && m.Plain? && Means(x, c, r, m)
    requires SixteenBit(x.h)
    ensures PlannedBy(CountOf(x, D(c), Div(m.hostOff, x.h.ClusterSize())), m.hostOff, PlanWrite(c, m))
  {
    hide SlotWord, CountOf, MemoryOK, Copied, Div, WellFormed, Cl, ReadRefcount, Means, RefOf, SixteenBit, ValidSlot,
      DeviceOK;
    PlainNames(x, c, r, m);
    CountRead(x, c, r, m.hostOff);
    CopiedCount(x, c, r, Div(m.hostOff, x.h.ClusterSize()));
    CountedOnce(x, c, r, Div(m.hostOff, x.h.ClusterSize()));
  }

  lemma ThroughPlan(x: Context, st: State, off: nat, buf: seq<byte>)
    requires OnePlain(x, st, off, buf) && SixteenBit(x.h)
    ensures var host := HostOf(x, st.core, off);
            && PureLookup(st.core, off).Ok?
            && PlannedBy(CountOf(x, D(st.core), Div(host, x.h.ClusterSize())), host,
                         PlanWrite(st.core, PureLookup(st.core, off).value))
  {
    hide SlotWord, CountOf, MemoryOK, CacheOK, ByteUnder, Copied, PureLookup, MapOf, Div, Mod, WellFormed, PlannedBy,
      Cl, SplitVirtual, PlanWrite, Means, RefOf, Addresses, PlainWord, HostOf, StateOK, SixteenBit, ValidSlot;
    PlainLookup(x, st, off, buf);
    StateMeans(x, st);
    PlanByCount(x, st.core, SlotOf(x.h, off), PureLookup(st.core, off).value);
  }

  /** A plain cluster with one reference is written where it is, on an image however full and whatever its flags say:
      the bytes, at one device step, and no other change to the device or to memory, to any entry or to any refcount. */
  lemma SingleRefWrite(x: Context, st: State, off: nat, buf: seq<byte>)
    requires OnePlain(x, st, off, buf) && SixteenBit(x.h)
    requires CountOf(x, D(st.core), Div(HostOf(x, st.core, off), x.h.ClusterSize())) == 1
    ensures Paired(st) && WriteAt(st, true, off, buf).Good?
    ensures var at := HostOf(x, st.core, off) + Mod(off, x.h.ClusterSize());
            && at + |buf| <= |st.core.dev|
            && WriteAt(st, true, off, buf).s.core
            == st.core.(dev := Put(st.core.dev, at, buf), log := st.core.log + [Patch(st.core.dev, at, buf)])
    ensures var d, d' := D(st.core), D(WriteAt(st, true, off, buf).s.core);
            && (forall s | ValidSlot(x, s) :: SlotWord(x, d', s) == SlotWord(x, d, s))
            && forall y: nat :: CountOf(x, d', y) == CountOf(x, d, y)
  {
    hide SlotWord, CountOf, WellFormed, MemoryOK, CacheOK, ByteUnder, Copied, PureLookup, MapOf, Div, Mod, HostOffset,
      Compressed, ZeroFlag, Cl, SplitVirtual, Base, PlanWrite, LookupCluster, MayWriteThrough, Sole;
    PlainLookup(x, st, off, buf);
    StateMeans(x, st);
    ThroughPlan(x, st, off, buf);
    OneChunkWrite(st, off, buf);
    LookupCached(st.core, st.caches[0], off);
    SplitParts(x.h, off);
    var r, host := SlotOf(x.h, off), HostOf(x, st.core, off);
    PlanOK(x, st.core, r, PureLookup(st.core, off).value);
    InsideCore(x, st.core, r, host);
    ThroughKeeps(x, st.core, r, host, Mod(off, x.h.ClusterSize()), buf);
  }

  lemma InsideCore(x: Context, c: Core, r: Slot, host: nat)
    requires CoreOK(x, c) && ValidSlot(x, r) && r.Data? && r.k == 0 && MayWriteThrough(x, c, r, host)
    ensures host + x.h.ClusterSize() <= c.imageLen <= |c.dev|
  {
    hide SlotWord, WellFormed, MemoryOK, Sole, HostOffset, Compressed, ZeroFlag, Copied, Div, Mul, RefOf;
  }

  lemma ThroughKeeps(x: Context, c: Core, r: Slot, host: nat, o: nat, src: seq<byte>)
    requires CoreOK(x, c) && ValidSlot(x, r) && r.Data? && r.k == 0 && MayWriteThrough(x, c, r, host)
    requires o + |src| <= x.h.ClusterSize() && host + o + |src| <= |c.dev|
    ensures var d' := Cl(x.h, Put(c.dev, host + o, src));
            && (forall s | ValidSlot(x, s) :: SlotWord(x, d', s) == SlotWord(x, D(c), s))
            && forall y: nat :: CountOf(x, d', y) == CountOf(x, D(c), y)
  {
    hide SlotWord, CountOf, HostOffset, Compressed, ZeroFlag, Div, Mul, WellFormed, MemoryOK, Content, Sole, RefOf,
      Copied, SameContentsBut, ClustersOf;
    var m := Put(c.dev, host + o, src);
    PutDiffers(x.h.ClusterSize(), c.dev, Div(host, x.h.ClusterSize()), o, src);
    ThroughImage(x, c, r, host, o, |src|, m);
    SameMetaCounts(x, D(c), Cl(x.h, m));
    forall s | ValidSlot(x, s) ensures SlotWord(x, Cl(x.h, m), s) == SlotWord(x, D(c), s) {
      WordKept(x, D(c), Cl(x.h, m), s);
    }
  }

  // ---- any length ----

  /** r's entry is that of a plain cluster with one reference. */
  ghost predicate Single(x: Context, d: Clusters, r: Slot)
    requires ValidSlot(x, r)
  {
    && PlainWord(x.h, SlotWord(x, d, r))
    && CountOf(x, d, Div(OffsetField(SlotWord(x, d, r)), x.h.ClusterSize())) == 1
  }

  ghost predicate AllSingle(x: Context, d: Clusters, off: nat, n: nat) {
    forall r | ValidSlot(x, r) && r.Data? && Meets(x.h, r, off, n) :: Single(x, d, r)
  }

  /** Nothing but the device's bytes and its log moved, and no entry and no refcount is among those bytes. */
  ghost predicate OnlyBytes(x: Context, c: Core, c': Core)
    requires c.h == x.h
  {
    && c' == c.(dev := c'.dev, log := c'.log)
    && (forall s | ValidSlot(x, s) :: SlotWord(x, D(c'), s) == SlotWord(x, D(c), s))
    && forall y: nat :: CountOf(x, D(c'), y) == CountOf(x, D(c), y)
  }

  lemma SingleChunk(x: Context, st: State, off: nat, src: seq<byte>)
    requires StateOK(x, st) && src != [] && off + |src| <= x.h.virtualSize && SixteenBit(x.h)
    requires Mod(off, x.h.ClusterSize()) + |src| <= x.h.ClusterSize()
    requires ValidSlot(x, SlotOf(x.h, off)) && Single(x, D(st.core), SlotOf(x.h, off))
    ensures Paired(st) && st.core.h == x.h
    ensures WriteChunk(st, off, src).Good? && OnlyBytes(x, st.core, WriteChunk(st, off, src).s.core)
  {
    hide StateOK, WriteChunk, WriteAt, Mod, Div, SlotWord, CountOf, SplitVirtual, ValidSlot, D, Put;
    HeaderOK(x, st);
    SingleRefWrite(x, st, off, src);
    OneChunkWrite(st, off, src);
  }

  lemma SinglesKept(x: Context, c: Core, c': Core, off: nat, n: nat, k: nat)
    requires c.h == x.h && AllSingle(x, D(c), off, n) && OnlyBytes(x, c, c') && k <= n
    ensures AllSingle(x, D(c'), off + k, n - k)
  {
    hide SlotWord, CountOf, Base, D, PlainWord, OffsetField, Div, ValidSlot;
    forall r | ValidSlot(x, r) && r.Data? && Meets(x.h, r, off + k, n - k) ensures Single(x, D(c'), r) {
      assert Meets(x.h, r, off, n);
      assert Single(x, D(c), r);
    }
  }

  lemma FirstSingle(x: Context, d: Clusters, off: nat, n: nat, r: Slot)
    requires AllSingle(x, d, off, n) && n > 0 && ValidSlot(x, r) && r.Data? && r.k == 0
    requires off == Base(x.h, r) + Mod(off, x.h.ClusterSize())
    ensures Single(x, d, r)
  {
    hide Base, Single, Mod;
    assert Meets(x.h, r, off, n);
  }

  lemma {:induction false} SinglesLoop(x: Context, st: State, off: nat, buf: seq<byte>)
    requires StateOK(x, st) && off + |buf| <= x.h.virtualSize && SixteenBit(x.h)
    requires AllSingle(x, D(st.core), off, |buf|)
    ensures Paired(st) && st.core.h == x.h
    ensures WriteLoop(st, off, buf).Good? && OnlyBytes(x, st.core, WriteLoop(st, off, buf).s.core)
    decreases |buf|
  {
    hide StateOK, WriteChunk, Mul, Div, Mod, ChunkDone, OnlyLeaks, Single, ChunkLen, SplitVirtual, AllSingle, SlotWord,
      CountOf, D, ValidSlot, SixteenBit;
    HeaderOK(x, st);
    if buf != [] {
      var k := ChunkLen(x.h, off, |buf|);
      ChunkStep(x, st, off, buf);
      SlotOfCursor(x, off);
      FirstSingle(x, D(st.core), off, |buf|, SlotOf(x.h, off));
      SingleChunk(x, st, off, buf[..k]);
      var w := WriteChunk(st, off, buf[..k]);
      SinglesKept(x, st.core, w.s.core, off, |buf|, k);
      SinglesLoop(x, w.s, off + k, buf[k..]);
    }
  }

  /** A write of any length over plain clusters with one reference each goes through on any image, however full, and
      moves no entry, no refcount and nothing in memory. */
  lemma SinglesWrite(x: Context, st: State, off: nat, buf: seq<byte>)
    requires StateOK(x, st) && off + |buf| <= x.h.virtualSize && SixteenBit(x.h)
    requires AllSingle(x, D(st.core), off, |buf|)
    ensures Paired(st) && st.core.h == x.h
    ensures WriteAt(st, true, off, buf).Good? && OnlyBytes(x, st.core, WriteAt(st, true, off, buf).s.core)
  {
    hide StateOK, WriteLoop, AllSingle, SlotWord, CountOf, D;
    HeaderOK(x, st);
    SinglesLoop(x, st, off, buf);
  }

  // ---- more than one reference ----

  lemma MovedWord(x: Context, st: State, cursor: nat, r: Slot, src: seq<byte>, seed: Seed, release: Option<nat>)
    requires r.Data? && Addresses(x.h, cursor, r) && ValidSlot(x, r)
    requires StateOK(x, st) && Seeds(x, st, r, seed)
    requires Div(cursor, x.h.ClusterSize()) == Mul(r.i, x.h.L2Entries()) + r.j
    requires Mod(cursor, x.h.ClusterSize()) + |src| <= x.h.ClusterSize()
    requires release.Some? ==> Touches(RefOf(x, D(st.core), r), Div(release.value, x.h.ClusterSize()))
    ensures Paired(st)
    ensures var w := ReallocateChunk(st, cursor, src, seed, release);
            w.Good? ==> w.s.core.h == x.h && NewEntry(SlotWord(x, D(w.s.core), r))
  {
    hide SlotWord, Content, WellFormed, MemoryOK, Seeds, SeedCluster, AllocateCluster, Publish, CacheOK, ByteUnder, Mul,
      Div, Mod, Quiet, RefOf, Slack, MetaOf, Put, Cl;
    StateMeans(x, st);
    SeedOK(x, st, r, cursor, seed);
    SplitParts(x.h, cursor);
    var s := SeedCluster(Chain(st), st.caches, cursor, seed);
    if s.Good? && AllocateCluster(st.core).Good? {
      PublishOK(x, st.core, cursor, r, Splice(s.v, Mod(cursor, x.h.ClusterSize()), src), release);
    }
  }

  /** A plain cluster with more references is never written: a write that goes through gives the entry a new word,
      marked as the only reference, to a cluster of its own. */
  lemma ManyRefsWrite(x: Context, st: State, off: nat, buf: seq<byte>)
    requires OnePlain(x, st, off, buf) && SixteenBit(x.h)
    requires CountOf(x, D(st.core), Div(HostOf(x, st.core, off), x.h.ClusterSize())) > 1
    ensures Paired(st)
    ensures var w := WriteAt(st, true, off, buf);
            w.Good? ==>
              && SlotWord(x, D(st.core), SlotOf(x.h, off)) < BIT_63
              && SlotWord(x, D(w.s.core), SlotOf(x.h, off)) >= BIT_63
  {
    hide SlotWord, CountOf, WellFormed, MemoryOK, CacheOK, ByteUnder, PureLookup, MapOf, Div, Mod, HostOffset,
      Compressed, ZeroFlag, Cl, SplitVirtual, Base, PlanWrite, LookupCluster, ReallocateChunk;
    PlainLookup(x, st, off, buf);
    StateMeans(x, st);
    ThroughPlan(x, st, off, buf);
    OneChunkWrite(st, off, buf);
    LookupCached(st.core, st.caches[0], off);
    var r, host := SlotOf(x.h, off), HostOf(x, st.core, off);
    CopiedCount(x, st.core, r, Div(host, x.h.ClusterSize()));
    var ca := LookupCluster(st.core, st.caches[0], off).s;
    var st1 := st.(caches := [ca] + st.caches[1..]);
    NewCache(x, st, ca);
    PlanSeeds(x, st1, r, PureLookup(st.core, off).value);
    PlanOK(x, st.core, r, PureLookup(st.core, off).value);
    MovedWord(x, st1, off, r, buf, SeedHost(host), Some(host));
  }

  /** On any device whose refcounts have another width, a write that would have to read or claim one changes nothing,
      and the width is what refuses it, unless bytes it has to copy cannot be read. */
  lemma OtherWidthWrite(st: State, off: nat, buf: seq<byte>)
    requires Paired(st) && buf != [] && off + |buf| <= st.core.h.virtualSize && !SixteenBit(st.core.h)
    requires Mod(off, st.core.h.ClusterSize()) + |buf| <= st.core.h.ClusterSize()
    requires var l := LookupCluster(st.core, st.caches[0], off); l.Good? && !(l.v.Plain? && l.v.copied)
    ensures var m, w := LookupCluster(st.core, st.caches[0], off).v, WriteAt(st, true, off, buf);
            && w.Bad? && w.s.core == st.core
            && (m.Plain? || m.Zero? || (m.Unallocated? && st.parents == []) ==> w.e == WideRefcounts)
  {
    hide LookupCluster, AllocateCluster, ReadRefcount, ReadDecompressedSlice, Publish, Mod, Div, Mul, SplitVirtual;
    OneChunkWrite(st, off, buf);
    OtherWidthRefused(st.core, 0);
    var l := LookupCluster(st.core, st.caches[0], off);
    if l.v.Plain? { OtherWidthRefused(st.core, l.v.hostOff); }
  }
}
