/** When a write is refused, and when it cannot be. */
module Refusals {
  import opened Bytes
  import opened Arith
  import opened Format
  import opened Accounting
  import opened Disk
  import opened DiskSteps
  import opened Images
  import opened Engine
  import opened Safety
  import opened Allocation
  import opened Scanning
  import opened Allocator
  import opened Refcounts
  import opened Tables
  import opened Publishing
  import opened Reading
  import opened Chunks
  import opened Writes
  import opened Spans
  import opened FirstFit

  /** Why the allocator, as it finds the device, says no. */
  ghost predicate NoRoom(x: Context, c: Core, e: Error)
    requires c.h == x.h
  {
    || (e == WideRefcounts && !Wide16(x.h))
    || (e == TableFull && Wide16(x.h) && TableIsFull(x, D(c)))
    || (e == Io && Wide16(x.h) && exists n: nat :: FirstFree(x, D(c), n) && !Fits(x.h, n, c.cap))
  }

  /** Why a write to r's cluster that leaves c stopped: the allocator still says no, or some byte of the cluster, which
      had to be copied whole, cannot be read. */
  ghost predicate Explained(x: Context, c: Core, r: Slot, e: Error)
    requires c.h == x.h && ValidSlot(x, r) && r.Data?
  {
    NoRoom(x, c, e) || Unknown(Content(x, D(c), r))
  }

  lemma AllocatorSaysNo(x: Context, c: Core)
    requires CoreOK(x, c) && AllocateCluster(c).Bad?
    ensures AllocateCluster(c).s.h == x.h && NoRoom(x, AllocateCluster(c).s, AllocateCluster(c).e)
  {
    hide WellFormed, MemoryOK, AllocateCluster, SlotWord, CountOf, FirstFree, TableIsFull, Cl, Quiet, Allocated;
    AllocateFirst(x, c);
    AllocateOK(x, c);
  }

  /** The entry is marked, in both tables, as the only reference to a plain cluster. */
  ghost predicate MarkedSole(x: Context, d: Clusters, r: Slot)
    requires ValidSlot(x, r) && r.Data? && r.k == 0
  {
    var w := SlotWord(x, d, r);
    && Copied(SlotWord(x, d, Table(0, r.i))) && Copied(w)
    && !Compressed(w) && !(x.h.version >= 3 && ZeroFlag(w)) && HostOffset(w) != 0
  }

  lemma MarkedIsPlain(x: Context, c: Core, r: Slot)
    requires CoreOK(x, c) && ValidSlot(x, r) && r.Data? && r.k == 0 && MarkedSole(x, D(c), r)
    ensures MapOf(x, c, r) == Ok(Plain(HostOffset(SlotWord(x, D(c), r)), true))
  {
    hide SlotWord, Compressed, ZeroFlag, Copied, HostOffset, L2ReservedBits, Mod, Cl, Inv, MemoryOK, DecodeDescriptor;
    EntryLegal(x, D(c), c.imageLen, r);
  }

  /** A chunk over such an entry always goes through, whatever the refcounts look like. */
  lemma MarkedGoesThrough(x: Context, st: State, cursor: nat, r: Slot, src: seq<byte>)
    requires StateOK(x, st) && r.Data? && Addresses(x.h, cursor, r) && ValidSlot(x, r)
    requires Mod(cursor, x.h.ClusterSize()) + |src| <= x.h.ClusterSize()
    requires MarkedSole(x, D(st.core), r)
    ensures Paired(st) && WriteChunk(st, cursor, src).Good?
    ensures var c' := WriteChunk(st, cursor, src).s.core;
            c'.h == x.h && KeepsTableWords(x, D(st.core), D(c'))
  {
    hide SlotWord, Content, WellFormed, MemoryOK, LookupCluster, DevWrite, ChunkDone, CacheOK, ByteUnder, Mul, Div, Mod,
      MayWriteThrough, RefOfWord, PureLookup, MapOf, StateOK, MarkedSole, HostOffset;
    StateMeans(x, st);
    MarkedIsPlain(x, st.core, r);
    LookupCached(st.core, st.caches[0], cursor);
    LookupSlot(x, st.core, cursor, r);
    var l := LookupCluster(st.core, st.caches[0], cursor);
    var st1 := st.(caches := [l.s] + st.caches[1..]);
    NewCache(x, st, l.s);
    PlanOK(x, st.core, r, l.v);
    var host, o := l.v.hostOff, Mod(cursor, x.h.ClusterSize());
    InPlaceState(x, st1, r, host, o, src);
    InPlaceWords(x, st.core, r, host, o, src);
    HeaderOK(x, st1.(core := DevWrite(st.core, host + o, src).s));
  }

  // ---- a chunk that is refused ----

  lemma PlanRefused(x: Context, c: Core, m: ClusterMap)
    requires CoreOK(x, c) && PlanWrite(c, m).Err?
    ensures NoRoom(x, c, PlanWrite(c, m).error)
  {
    hide WellFormed, MemoryOK, SlotWord, CountOf, FirstFree, TableIsFull, Cl, Div, Mod, DevRead;
    RootThere(x, c);
    ReadRefcountOK(x, c, m.hostOff);
  }

  lemma ReallocateRefused(x: Context, st: State, cursor: nat, r: Slot, src: seq<byte>, seed: Seed, release: Option<nat>)
    requires r.Data? && Addresses(x.h, cursor, r) && ValidSlot(x, r)
    requires StateOK(x, st) && Seeds(x, st, r, seed) && Lets(seed, release)
    requires Div(cursor, x.h.ClusterSize()) == Mul(r.i, x.h.L2Entries()) + r.j
    requires Mod(cursor, x.h.ClusterSize()) + |src| <= x.h.ClusterSize()
    requires release.Some? ==> Touches(RefOf(x, D(st.core), r), Div(release.value, x.h.ClusterSize()))
    requires Paired(st) && ReallocateChunk(st, cursor, src, seed, release).Bad?
    ensures var o := ReallocateChunk(st, cursor, src, seed, release);
            o.s.core.h == x.h && Explained(x, o.s.core, r, o.e)
  {
    hide SlotWord, Content, WellFormed, MemoryOK, Seeds, SeedCluster, AllocateCluster, Publish, CachesOK, ByteUnder,
      Mul, Div, Mod, Quiet, RefOf, KeepsTableWords, NoRoom, Put, Published;
    StateMeans(x, st);
    SeedOK(x, st, r, cursor, seed);
    var s := SeedCluster(Chain(st), st.caches, cursor, seed);
    if s.Good? {
      AllocateOK(x, st.core);
      var a := AllocateCluster(st.core);
      if a.Bad? {
        AllocatorSaysNo(x, st.core);
      } else {
        var full := Splice(s.v, Mod(cursor, x.h.ClusterSize()), src);
        PublishOK(x, st.core, cursor, r, full, release);
        var c1 := DevWrite(a.s, a.v, full).s;
        PrepareOK(x, st.core, full);
        PreparedOK(x, st.core, c1, Div(a.v, x.h.ClusterSize()), full);
        if Publish(a.s, cursor, a.v, full, release).Bad? { AllocatorSaysNo(x, c1); }
      }
    }
  }

  lemma ChunkRefused(x: Context, st: State, cursor: nat, r: Slot, src: seq<byte>)
    requires StateOK(x, st) && r.Data? && Addresses(x.h, cursor, r) && ValidSlot(x, r)
    requires Div(cursor, x.h.ClusterSize()) == Mul(r.i, x.h.L2Entries()) + r.j
    requires Mod(cursor, x.h.ClusterSize()) + |src| <= x.h.ClusterSize()
    requires Paired(st) && WriteChunk(st, cursor, src).Bad?
    ensures var o := WriteChunk(st, cursor, src);
            o.s.core.h == x.h && Explained(x, o.s.core, r, o.e)
  {
    hide SlotWord, Content, WellFormed, MemoryOK, Seeds, LookupCluster, PlanWrite, ReallocateChunk, DevWrite, ChunkDone,
      CacheOK, ByteUnder, Mul, Div, Mod, MayWriteThrough, RefOfWord, PureLookup, MapOf, StateOK, NoRoom, Unknown;
    StateMeans(x, st);
    LookupCached(st.core, st.caches[0], cursor);
    LookupSlot(x, st.core, cursor, r);
    var l := LookupCluster(st.core, st.caches[0], cursor);
    var st1 := st.(caches := [l.s] + st.caches[1..]);
    NewCache(x, st, l.s);
    PlanOK(x, st.core, r, l.v);
    PlanSeeds(x, st1, r, l.v);
    PlanLets(st.core, l.v);
    var p := PlanWrite(st.core, l.v);
    if p.Err? {
      PlanRefused(x, st.core, l.v);
    } else if p.value.InPlace? {
      InPlaceState(x, st1, r, p.value.hostOff, Mod(cursor, x.h.ClusterSize()), src);
    } else {
      ReallocateRefused(x, st1, cursor, r, src, p.value.seed, p.value.release);
    }
  }

  // ---- a whole write ----

  /** A refused write was refused at one of its clusters, for a reason that still holds in the state it leaves. */
  lemma {:induction false} LoopRefused(x: Context, st: State, off: nat, buf: seq<byte>) returns (r: Slot)
    requires StateOK(x, st) && off + |buf| <= x.h.virtualSize && Paired(st) && WriteLoop(st, off, buf).Bad?
    ensures var w := WriteLoop(st, off, buf);
            && ValidSlot(x, r) && r.Data? && Meets(x.h, r, off, |buf|)
            && w.s.core.h == x.h && Explained(x, w.s.core, r, w.e)
    decreases |buf|
  {
    hide StateOK, WriteChunk, Mul, Div, Mod, ChunkDone, OnlyLeaks, Explained, ChunkLen, SplitVirtual, Base;
    HeaderOK(x, st);
    var k := ChunkLen(x.h, off, |buf|);
    ChunkStep(x, st, off, buf);
    SlotOfCursor(x, off);
    var w := WriteChunk(st, off, buf[..k]);
    if w.Bad? {
      r := SlotOf(x.h, off);
      ChunkRefused(x, st, off, r, buf[..k]);
    } else {
      r := LoopRefused(x, w.s, off + k, buf[k..]);
    }
  }

  /** A writable call in range fails only as Explained says, at some cluster of the range. */
  lemma WriteAtRefused(x: Context, st: State, off: nat, buf: seq<byte>) returns (r: Slot)
    requires StateOK(x, st) && off + |buf| <= x.h.virtualSize && Paired(st) && WriteAt(st, true, off, buf).Bad?
    ensures var w := WriteAt(st, true, off, buf);
            && ValidSlot(x, r) && r.Data? && Meets(x.h, r, off, |buf|)
            && w.s.core.h == x.h && Explained(x, w.s.core, r, w.e)
  {
    hide StateOK, WriteLoop, Explained, Base;
    HeaderOK(x, st);
    r := LoopRefused(x, st, off, buf);
  }

  ghost predicate AllMarked(x: Context, d: Clusters, off: nat, n: nat) {
    forall r | ValidSlot(x, r) && r.Data? && Meets(x.h, r, off, n) :: MarkedSole(x, d, r)
  }

  lemma MarksKept(x: Context, d: Clusters, d': Clusters, off: nat, n: nat, k: nat)
    requires AllMarked(x, d, off, n) && KeepsTableWords(x, d, d') && k <= n
    ensures AllMarked(x, d', off + k, n - k)
  {
    hide SlotWord, Base;
    forall r | ValidSlot(x, r) && r.Data? && Meets(x.h, r, off + k, n - k) ensures MarkedSole(x, d', r) {
      assert Meets(x.h, r, off, n) && ValidSlot(x, Table(0, r.i));
    }
  }

  /** A write over clusters that are all marked as private never fails. */
  lemma {:induction false} MarkedLoop(x: Context, st: State, off: nat, buf: seq<byte>)
    requires StateOK(x, st) && off + |buf| <= x.h.virtualSize && AllMarked(x, D(st.core), off, |buf|)
    ensures Paired(st) && WriteLoop(st, off, buf).Good?
    decreases |buf|
  {
    hide StateOK, WriteChunk, Mul, Div, Mod, ChunkDone, OnlyLeaks, MarkedSole, ChunkLen, SplitVirtual, KeepsTableWords,
      AllMarked;
    HeaderOK(x, st);
    if buf != [] {
      var k := ChunkLen(x.h, off, |buf|);
      ChunkStep(x, st, off, buf);
      SlotOfCursor(x, off);
      FirstMarked(x, D(st.core), off, |buf|, SlotOf(x.h, off));
      MarkedGoesThrough(x, st, off, SlotOf(x.h, off), buf[..k]);
      var w := WriteChunk(st, off, buf[..k]);
      MarksKept(x, D(st.core), D(w.s.core), off, |buf|, k);
      MarkedLoop(x, w.s, off + k, buf[k..]);
    }
  }

  lemma FirstMarked(x: Context, d: Clusters, off: nat, n: nat, r: Slot)
    requires AllMarked(x, d, off, n) && n > 0 && ValidSlot(x, r) && r.Data? && r.k == 0
    requires off == Base(x.h, r) + Mod(off, x.h.ClusterSize())
    ensures MarkedSole(x, d, r)
  {
    hide Base, MarkedSole, Mod;
    assert Meets(x.h, r, off, n);
  }

  lemma MarkedWrite(x: Context, st: State, off: nat, buf: seq<byte>)
    requires StateOK(x, st) && off + |buf| <= x.h.virtualSize && AllMarked(x, D(st.core), off, |buf|)
    ensures Paired(st) && WriteAt(st, true, off, buf).Good?
  {
    hide StateOK, WriteLoop, AllMarked;
    HeaderOK(x, st);
    MarkedLoop(x, st, off, buf);
  }

  // ---- enough room ----

  /** Cluster y is free, in a block that exists, and the device can hold it. */
  ghost predicate Spare(x: Context, c: Core, y: nat)
    requires c.h == x.h
  {
    Present(x, D(c), y) && CountOf(x, D(c), y) == 0 && Fits(x.h, y, c.cap)
  }

  lemma SpareNotFull(x: Context, d: Clusters, y: nat, n: nat)
    requires Present(x, d, y) && CountOf(x, d, y) == 0
    ensures !TableIsFull(x, d)
    ensures FirstFree(x, d, n) ==> n <= y && Present(x, d, n) && CountOf(x, d, n) == 0
  {
    hide SlotWord, CountOf, Present, RootEntries, EntryCluster;
  }

  lemma FitsBelow(h: Header, n: nat, y: nat, len: nat)
    requires n <= y && Fits(h, y, len)
    ensures Fits(h, n, len)
  {
    MulMono(n, y, h.ClusterSize());
  }

  lemma SpareIsFound(x: Context, c: Core, y: nat)
    requires CoreOK(x, c) && Wide16(x.h) && Spare(x, c, y)
    ensures AllocateCluster(c).Good?
  {
    hide WellFormed, MemoryOK, AllocateCluster, FirstFree, TableIsFull, Cl, Present, CountOf, Fits;
    AllocateFirst(x, c);
    SpareNotFull(x, D(c), y, 0);
    if AllocateCluster(c).Bad? {
      var n: nat :| FirstFree(x, D(c), n) && !Fits(x.h, n, c.cap);
      SpareNotFull(x, D(c), y, n);
      FitsBelow(x.h, n, y, c.cap);
    }
  }

  /** A second spare cluster is still there once the first free one has been taken and filled. */
  lemma SecondSpare(x: Context, c: Core, full: seq<byte>, y: nat, z: nat)
    requires CoreOK(x, c) && Wide16(x.h) && Spare(x, c, y) && Spare(x, c, z) && y < z && |full| == x.h.ClusterSize()
    ensures AllocateCluster(c).Good?
    ensures var c1 := DevWrite(AllocateCluster(c).s, AllocateCluster(c).v, full).s;
            c1.h == x.h && Spare(x, c1, z)
  {
    hide WellFormed, MemoryOK, AllocateCluster, FirstFree, TableIsFull, Cl, CountOf, Fits, SlotWord, SameContents,
      CrashesReadAs, Claims, DevWrite, Mul, Div, Users, NewBlock;
    SpareIsFound(x, c, y);
    var a := AllocateCluster(c);
    AllocateOK(x, c);
    AllocateFrame(x, c);
    AllocateFirst(x, c);
    var n: nat :| a.v == Mul(n, x.h.ClusterSize()) && FirstFree(x, D(c), n) && Fits(x.h, n, c.cap);
    SpareNotFull(x, D(c), y, n);
    var m: nat :| a.v == Mul(m, x.h.ClusterSize()) && OnlyCounts(x, D(c), D(a.s), m);
    MulDiv(n, x.h.ClusterSize());
    MulDiv(m, x.h.ClusterSize());
    FilledCounts(x, c, a.s, n, full);
    assert CountOf(x, D(a.s), z) == 0;
  }

  lemma FilledCounts(x: Context, c: Core, a: Core, n: nat, full: seq<byte>)
    requires c.h == x.h && CoreOK(x, a) && Allocated(x, c, a, Mul(n, x.h.ClusterSize())) && |full| == x.h.ClusterSize()
    ensures var c1 := DevWrite(a, Mul(n, x.h.ClusterSize()), full).s;
            && c1.h == x.h && c1.cap == a.cap && SameWords(x, D(a), D(c1))
            && forall y: nat :: CountOf(x, D(c1), y) == CountOf(x, D(a), y)
  {
    hide WellFormed, MemoryOK, CountOf, SlotWord, SameContents, CrashesReadAs, Mul, DevWrite, Slack, Users, Cl;
    MulDiv(n, x.h.ClusterSize());
    FillWrite(x, a, n, full);
    var c1 := DevWrite(a, Mul(n, x.h.ClusterSize()), full).s;
    forall y: nat ensures CountOf(x, D(c1), y) == CountOf(x, D(a), y) {
      assert Count(MetaOf(x, D(c1)), y) == Count(MetaOf(x, D(a)), y);
    }
  }

  lemma ReallocateGoesThrough(x: Context, st: State, cursor: nat, r: Slot, src: seq<byte>, seed: Seed,
                              release: Option<nat>, y: nat, z: nat)
    requires r.Data? && Addresses(x.h, cursor, r) && ValidSlot(x, r)
    requires StateOK(x, st) && Seeds(x, st, r, seed) && Lets(seed, release)
    requires Div(cursor, x.h.ClusterSize()) == Mul(r.i, x.h.L2Entries()) + r.j
    requires Mod(cursor, x.h.ClusterSize()) + |src| <= x.h.ClusterSize()
    requires release.Some? ==> Touches(RefOf(x, D(st.core), r), Div(release.value, x.h.ClusterSize()))
    requires Wide16(x.h) && st.core.h == x.h && Spare(x, st.core, y) && Spare(x, st.core, z) && y < z
    requires !Unknown(Content(x, D(st.core), r))
    ensures Paired(st) && ReallocateChunk(st, cursor, src, seed, release).Good?
  {
    hide SlotWord, Content, WellFormed, MemoryOK, Seeds, SeedCluster, AllocateCluster, Publish, CachesOK, ByteUnder,
      Mul, Div, Mod, Quiet, RefOf, KeepsTableWords, Spare, Put, Published, Unknown;
    StateMeans(x, st);
    SeedOK(x, st, r, cursor, seed);
    var s := SeedCluster(Chain(st), st.caches, cursor, seed);
    AllocateOK(x, st.core);
    var full := Splice(s.v, Mod(cursor, x.h.ClusterSize()), src);
    SecondSpare(x, st.core, full, y, z);
    var a := AllocateCluster(st.core);
    PublishOK(x, st.core, cursor, r, full, release);
    var c1 := DevWrite(a.s, a.v, full).s;
    PrepareOK(x, st.core, full);
    PreparedOK(x, st.core, c1, Div(a.v, x.h.ClusterSize()), full);
    SpareIsFound(x, c1, z);
  }

  /** Where two free clusters fit the device and the cluster can be read, a chunk goes through. */
  lemma RoomGoesThrough(x: Context, st: State, cursor: nat, r: Slot, src: seq<byte>, y: nat, z: nat)
    requires StateOK(x, st) && r.Data? && Addresses(x.h, cursor, r) && ValidSlot(x, r)
    requires Div(cursor, x.h.ClusterSize()) == Mul(r.i, x.h.L2Entries()) + r.j
    requires Mod(cursor, x.h.ClusterSize()) + |src| <= x.h.ClusterSize()
    requires Wide16(x.h) && st.core.h == x.h && Spare(x, st.core, y) && Spare(x, st.core, z) && y < z
    requires !Unknown(Content(x, D(st.core), r))
    ensures Paired(st) && WriteChunk(st, cursor, src).Good?
  {
    hide SlotWord, Content, WellFormed, MemoryOK, Seeds, LookupCluster, PlanWrite, ReallocateChunk, DevWrite, ChunkDone,
      CacheOK, ByteUnder, Mul, Div, Mod, MayWriteThrough, RefOfWord, PureLookup, MapOf, StateOK, Unknown, Spare;
    StateMeans(x, st);
    LookupCached(st.core, st.caches[0], cursor);
    LookupSlot(x, st.core, cursor, r);
    var l := LookupCluster(st.core, st.caches[0], cursor);
    var st1 := st.(caches := [l.s] + st.caches[1..]);
    NewCache(x, st, l.s);
    PlanOK(x, st.core, r, l.v);
    PlanSeeds(x, st1, r, l.v);
    PlanLets(st.core, l.v);
    PlanGiven(x, st.core, l.v);
    var p := PlanWrite(st.core, l.v);
    if p.value.InPlace? {
      InPlaceState(x, st1, r, p.value.hostOff, Mod(cursor, x.h.ClusterSize()), src);
    } else {
      ReallocateGoesThrough(x, st1, cursor, r, src, p.value.seed, p.value.release, y, z);
    }
  }

  lemma PlanGiven(x: Context, c: Core, m: ClusterMap)
    requires CoreOK(x, c) && Wide16(x.h)
    ensures PlanWrite(c, m).Ok?
  {
    hide WellFormed, MemoryOK, SlotWord, CountOf, Cl, Div, Mod, ReadRefcount;
    RootThere(x, c);
    if m.Plain? { ReadRefcountOK(x, c, m.hostOff); }
  }

  /** The same for a write call within one cluster. */
  lemma OneClusterGoesThrough(x: Context, st: State, off: nat, buf: seq<byte>, y: nat, z: nat)
    requires StateOK(x, st) && off + |buf| <= x.h.virtualSize && buf != []
    requires Mod(off, x.h.ClusterSize()) + |buf| <= x.h.ClusterSize()
    requires Wide16(x.h) && st.core.h == x.h && Spare(x, st.core, y) && Spare(x, st.core, z) && y < z
    requires ValidSlot(x, SlotOf(x.h, off)) ==> !Unknown(Content(x, D(st.core), SlotOf(x.h, off)))
    ensures Paired(st) && WriteAt(st, true, off, buf).Good?
  {
    hide StateOK, WriteChunk, Mul, Div, Mod, Unknown, Spare, SplitVirtual, Content;
    HeaderOK(x, st);
    SlotOfCursor(x, off);
    var k := ChunkLen(x.h, off, |buf|);
    assert k == |buf| && buf[..k] == buf && buf[k..] == [];
    RoomGoesThrough(x, st, off, SlotOf(x.h, off), buf, y, z);
    var w := WriteChunk(st, off, buf);
    assert WriteLoop(w.s, off + k, buf[k..]).Good?;
    assert WriteLoop(st, off, buf).Good?;
  }

  // ---- arguments ----

  /** A call is refused for its arguments before anything else, and changes nothing: a write to a read-only image,
      even an empty one; a range whose end is no 64-bit offset; a range that leaves the disk. An empty range is not
      looked at. */
  lemma ArgumentsRefused(st: State, writable: bool, off: nat, buf: seq<byte>, n: nat)
    requires Paired(st)
    ensures var w := WriteAt(st, writable, off, buf);
            && (!writable ==> w == Bad(st, ReadOnly))
            && (writable && buf == [] ==> w == Good(st, ()))
            && (writable && buf != [] && off + |buf| >= 0x1_0000_0000_0000_0000 ==> w == Bad(st, OffsetOverflow))
            && (writable && buf != [] && st.core.h.virtualSize < off + |buf| < 0x1_0000_0000_0000_0000 ==>
                  w == Bad(st, OutOfBounds))
    ensures var r := ReadAt(Chain(st), st.caches, off, n);
            && (n == 0 ==> r == Good(st.caches, []))
            && (n > 0 && off + n >= 0x1_0000_0000_0000_0000 ==> r == Bad(st.caches, OffsetOverflow))
            && (n > 0 && st.core.h.virtualSize < off + n < 0x1_0000_0000_0000_0000 ==> r == Bad(st.caches, OutOfBounds))
  {
    hide WriteLoop, ReadLoop;
  }
}
