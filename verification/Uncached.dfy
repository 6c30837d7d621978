/** The same reader with no caches at all, and why the caches change no answer and no byte of the device. */
module Uncached {
  import opened Bytes
  import opened Arith
  import opened Format
  import opened Accounting
  import opened Disk
  import opened Engine
  import opened Images
  import opened Allocator
  import opened Publishing
  import opened Reading
  import opened Chunks
  import opened Writes
  import opened Spans

  function PureReadAt(ch: seq<Core>, off: nat, n: nat): Result<seq<byte>>
    requires ch != []
    decreases |ch|, 3, n
  {
    if n == 0 then Ok([])
    else if off + n >= 0x1_0000_0000_0000_0000 then Err(OffsetOverflow)
    else if off + n > ch[0].h.virtualSize then Err(OutOfBounds)
    else PureReadLoop(ch, off, n)
  }

  function PureReadLoop(ch: seq<Core>, cursor: nat, n: nat): Result<seq<byte>>
    requires ch != []
    decreases |ch|, 2, n
  {
    if n == 0 then Ok([])
    else
      var k := ChunkLen(ch[0].h, cursor, n);
      var b :- PureReadChunk(ch, cursor, k);
      var rest :- PureReadLoop(ch, cursor + k, n - k);
      Ok(b + rest)
  }

  function PureSlice(c: Core, off: nat, span: nat, skip: nat, n: nat): Result<seq<byte>> {
    var out :- PureUnpack(c, off, span);
    Ok(Slice(out, skip, n))
  }

  function PureReadChunk(ch: seq<Core>, cursor: nat, n: nat): Result<seq<byte>>
    requires ch != []
    decreases |ch|, 1, n
  {
    var o := Mod(cursor, ch[0].h.ClusterSize());
    var m :- PureLookup(ch[0], cursor);
    match m
    case Plain(host, _) => DevRead(ch[0], host + o, n)
    case Packed(off, span) => PureSlice(ch[0], off, span, o, n)
    case Zero => Ok(Zeros(n))
    case Unallocated => PureReadUnder(ch[1..], cursor, n)
  }

  function PureReadUnder(parents: seq<Core>, virt: nat, n: nat): Result<seq<byte>>
    decreases |parents|, 4, n
  {
    if parents == [] || virt >= parents[0].h.virtualSize then Ok(Zeros(n))
    else
      var k := Min(n, parents[0].h.virtualSize - virt);
      var b :- PureReadAt(parents, virt, k);
      Ok(b + Zeros(n - k))
  }

  // ---- reads ----

  lemma {:induction false} ReadAtPure(ch: seq<Core>, ca: seq<Cache>, off: nat, n: nat)
    requires ch != [] && CachesOK(ch, ca)
    ensures ReadAt(ch, ca, off, n).Outcome() == PureReadAt(ch, off, n)
    decreases |ch|, 3, n
  {
    hide CacheOK;
    if n > 0 && off + n <= ch[0].h.virtualSize { ReadLoopPure(ch, ca, off, n); }
  }

  lemma {:induction false} ReadLoopPure(ch: seq<Core>, ca: seq<Cache>, v: nat, n: nat)
    requires ch != [] && CachesOK(ch, ca)
    ensures ReadLoop(ch, ca, v, n).Outcome() == PureReadLoop(ch, v, n)
    decreases |ch|, 2, n
  {
    hide CacheOK, ReadChunk, PureReadChunk;
    if n > 0 {
      var k := ChunkLen(ch[0].h, v, n);
      ReadChunkPure(ch, ca, v, k);
      ReadChunkOK(ch, ca, v, k);
      var a := ReadChunk(ch, ca, v, k);
      if a.Good? { ReadLoopPure(ch, a.s, v + k, n - k); }
    }
  }

  lemma {:induction false} ReadChunkPure(ch: seq<Core>, ca: seq<Cache>, v: nat, n: nat)
    requires ch != [] && CachesOK(ch, ca)
    requires n > 0 && Mod(v, ch[0].h.ClusterSize()) + n <= ch[0].h.ClusterSize()
    ensures ReadChunk(ch, ca, v, n).Outcome() == PureReadChunk(ch, v, n)
    decreases |ch|, 1, n
  {
    hide LookupCluster, ReadDecompressedSlice, PureLookup, CacheOK, PureUnpack, Div, Mod, Mul;
    LookupCached(ch[0], ca[0], v);
    var x := LookupCluster(ch[0], ca[0], v).s;
    var m := PureLookup(ch[0], v);
    if m.Ok? && m.value.Packed? {
      UnpackChunk(ch[0], x, v, n, m.value.hostOff, m.value.byteLen);
    } else if m.Ok? && m.value.Unallocated? {
      ReadUnallocatedPure(ch, [x] + ca[1..], v, n);
    }
  }

  lemma {:induction false} ReadUnallocatedPure(ch: seq<Core>, ca: seq<Cache>, v: nat, n: nat)
    requires ch != [] && CachesOK(ch, ca)
    ensures ReadUnallocated(ch, ca, v, n).Outcome() == PureReadUnder(ch[1..], v, n)
    decreases |ch|, 0, n
  {
    hide CacheOK, ReadAt;
    if |ch| > 1 && v < ch[1].h.virtualSize {
      ReadAtPure(ch[1..], ca[1..], v, Min(n, ch[1].h.virtualSize - v));
    }
  }

  // ---- writes ----

  function PureSeed(c: Core, parents: seq<Core>, virt: nat, seed: Seed): Result<seq<byte>> {
    var cs := c.h.ClusterSize();
    match seed
    case SeedZeros => Ok(Zeros(cs))
    case SeedHost(host) => DevRead(c, host, cs)
    case SeedPacked(off, span) => PureSlice(c, off, span, 0, cs)
    case SeedBacking => PureReadUnder(parents, Mul(Div(virt, cs), cs), cs)
  }

  function PureReallocate(c: Core, parents: seq<Core>, cursor: nat, src: seq<byte>, seed: Seed, release: Option<nat>)
    : Out<Core, ()>
  {
    match PureSeed(c, parents, cursor, seed)
    case Err(e) => Bad(c, e)
    case Ok(seeded) =>
      var (c1, host) :- AllocateCluster(c);
      Publish(c1, cursor, host, Splice(seeded, Mod(cursor, c.h.ClusterSize()), src), release)
  }

  function PureWriteChunk(c: Core, parents: seq<Core>, cursor: nat, src: seq<byte>): Out<Core, ()> {
    match PureLookup(c, cursor)
    case Err(e) => Bad(c, e)
    case Ok(m) =>
      match PlanWrite(c, m)
      case Err(e) => Bad(c, e)
      case Ok(InPlace(host)) => DevWrite(c, host + Mod(cursor, c.h.ClusterSize()), src)
      case Ok(Reallocate(seed, release)) => PureReallocate(c, parents, cursor, src, seed, release)
  }

  function PureWriteLoop(c: Core, parents: seq<Core>, cursor: nat, buf: seq<byte>): Out<Core, ()>
    decreases |buf|
  {
    if buf == [] then Good(c, ())
    else
      var k := ChunkLen(c.h, cursor, |buf|);
      var (c1, _) :- PureWriteChunk(c, parents, cursor, buf[..k]);
      PureWriteLoop(c1, parents, cursor + k, buf[k..])
  }

  function PureWriteAt(c: Core, parents: seq<Core>, writable: bool, off: nat, buf: seq<byte>): Out<Core, ()> {
    if !writable then Bad(c, ReadOnly)
    else if buf == [] then Good(c, ())
    else if off + |buf| >= 0x1_0000_0000_0000_0000 then Bad(c, OffsetOverflow)
    else if off + |buf| > c.h.virtualSize then Bad(c, OutOfBounds)
    else PureWriteLoop(c, parents, off, buf)
  }

  /** The same answer, and the same device and memory but for the caches. */
  ghost predicate SameStep<T>(a: Out<State, T>, b: Out<Core, T>) {
    a.Outcome() == b.Outcome() && a.s.core == b.s
  }

  lemma SeedPure(x: Context, st: State, r: Slot, v: nat, seed: Seed)
    requires StateOK(x, st) && r.Data? && Addresses(x.h, v, r) && ValidSlot(x, r) && Seeds(x, st, r, seed)
    ensures SeedCluster(Chain(st), st.caches, v, seed).Outcome() == PureSeed(st.core, st.parents, v, seed)
  {
    hide SlotWord, Compressed, DecodeDescriptor, ZeroFlag, Copied, HostOffset, PureLookup, PureUnpack, CacheOK, Mul,
      Div, Mod, WellFormed, MemoryOK, ByteUnder, ReadDecompressedSlice, ReadUnallocated, RefOfWord, SplitVirtual;
    var cs := x.h.ClusterSize();
    assert Chain(st)[0] == st.core && Chain(st)[1..] == st.parents;
    assert CacheOK(Chain(st)[0], st.caches[0]);
    match seed
    case SeedZeros =>
    case SeedHost(_) =>
    case SeedBacking => ReadUnallocatedPure(Chain(st), st.caches, Mul(Div(v, cs), cs), cs);
    case SeedPacked(off, span) =>
      LookupSlot(x, st.core, v, r);
      PackedMap(x, st.core, r, off, span);
      MulDiv(Div(v, cs), cs);
      SameCluster(st.core, Mul(Div(v, cs), cs), v);
      UnpackCached(st.core, st.caches[0], Div(v, cs), off, span, 0, cs);
  }

  lemma PackedMap(x: Context, c: Core, r: Slot, off: nat, span: nat)
    requires c.h == x.h && ValidSlot(x, r) && r.Data? && r.k == 0
    requires MapOf(x, c, r).Ok? && Means(x, c, r, Packed(off, span))
    ensures MapOf(x, c, r) == Ok(Packed(off, span))
  {
    hide SlotWord, Compressed, DecodeDescriptor, ZeroFlag, Copied, HostOffset, RefOfWord, L2ReservedBits, Div;
  }

  lemma ReallocatePure(x: Context, st: State, cursor: nat, r: Slot, src: seq<byte>, seed: Seed, release: Option<nat>)
    requires StateOK(x, st) && r.Data? && Addresses(x.h, cursor, r) && ValidSlot(x, r) && Seeds(x, st, r, seed)
    ensures Paired(st) && SameStep(ReallocateChunk(st, cursor, src, seed, release),
                                   PureReallocate(st.core, st.parents, cursor, src, seed, release))
  {
    hide SeedCluster, PureSeed, AllocateCluster, Publish, Seeds, CachesOK, WellFormed, MemoryOK, ByteUnder, Mod, Mul,
      Div;
    SeedPure(x, st, r, cursor, seed);
    var a := AllocateCluster(st.core);
    if a.Good? {
      var seeded := SeedCluster(Chain(st), st.caches, cursor, seed);
      if seeded.Good? {
        var p := Publish(a.s, cursor, a.v, Splice(seeded.v, Mod(cursor, x.h.ClusterSize()), src), release);
        assert p.Good? ==> p.v == ();
      }
    }
  }

  lemma WriteChunkPure(x: Context, st: State, cursor: nat, src: seq<byte>)
    requires StateOK(x, st) && cursor < x.h.virtualSize
    ensures Paired(st) && SameStep(WriteChunk(st, cursor, src), PureWriteChunk(st.core, st.parents, cursor, src))
  {
    hide SlotWord, WellFormed, MemoryOK, Seeds, LookupCluster, PlanWrite, ReallocateChunk, PureReallocate,
      CacheOK, ByteUnder, Mul, Div, Mod, PureLookup, MapOf, StateOK;
    StateMeans(x, st);
    HeaderOK(x, st);
    SlotOfCursor(x, cursor);
    var r := SlotOf(x.h, cursor);
    LookupCached(st.core, st.caches[0], cursor);
    LookupSlot(x, st.core, cursor, r);
    var l := LookupCluster(st.core, st.caches[0], cursor);
    var st1 := st.(caches := [l.s] + st.caches[1..]);
    NewCache(x, st, l.s);
    PlanSeeds(x, st1, r, l.v);
    var p := PlanWrite(st.core, l.v);
    if p.Ok? && p.value.Reallocate? {
      ReallocatePure(x, st1, cursor, r, src, p.value.seed, p.value.release);
    }
  }

  lemma {:induction false} WriteLoopPure(x: Context, st: State, off: nat, buf: seq<byte>)
    requires StateOK(x, st) && off + |buf| <= x.h.virtualSize
    ensures Paired(st) && SameStep(WriteLoop(st, off, buf), PureWriteLoop(st.core, st.parents, off, buf))
    decreases |buf|
  {
    hide StateOK, WriteChunk, PureWriteChunk, Mul, Div, Mod, ChunkDone, OnlyLeaks, Base, ValidSlot, SlotOf, ChunkLen;
    HeaderOK(x, st);
    if buf != [] {
      ChunkStep(x, st, off, buf);
      var k := ChunkLen(x.h, off, |buf|);
      WriteChunkPure(x, st, off, buf[..k]);
      var w := WriteChunk(st, off, buf[..k]);
      if w.Good? { WriteLoopPure(x, w.s, off + k, buf[k..]); }
    }
  }

  /** A write through the caches is the write without them: same outcome, same device, same memory. */
  lemma WriteAtPure(x: Context, st: State, writable: bool, off: nat, buf: seq<byte>)
    requires StateOK(x, st)
    ensures Paired(st)
    ensures SameStep(WriteAt(st, writable, off, buf), PureWriteAt(st.core, st.parents, writable, off, buf))
  {
    hide StateOK, WriteLoop, PureWriteLoop;
    HeaderOK(x, st);
    if off + |buf| <= x.h.virtualSize { WriteLoopPure(x, st, off, buf); }
  }
}
