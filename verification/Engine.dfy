/** What the reader computes, step by step, on any device contents whatever: every branch and every refusal.

    A step takes the state it reads and gives the state it leaves, with a value or an error.
    Each write and each growth of the device is logged with the bytes that were there before it. */
module Engine {
  import opened Bytes
  import opened Arith
  import opened Format

  datatype Out<+S, +T> = Good(s: S, v: T) | Bad(s: S, e: Error) {
    predicate IsFailure() { Bad? }
    function PropagateFailure<U>(): Out<S, U> requires Bad? { Bad(s, e) }
    function Extract(): (S, T) requires Good? { (s, v) }
    function Outcome(): Result<T> { if Good? then Ok(v) else Err(e) }
  }

  /** One change to the device: bytes put at an offset, or zeros added up to a new length. */
  datatype DevStep = Patch(pre: seq<byte>, off: nat, buf: seq<byte>) | Extend(pre: seq<byte>, len: nat)

  /** Everything but the caches: the device (of at most cap bytes), the resident L1 and refcount tables, the image
      length, the allocation cursor, and the log of device changes. */
  datatype Core = Core(
    h: Header, codec: Codec, cap: nat, dev: seq<byte>, l1: seq<u64>, imageLen: nat,
    root: Option<seq<byte>>, cursor: nat, log: seq<DevStep>)

  /** The one-slot caches: an L2 table by L1 index, a decompressed cluster by virtual cluster. */
  datatype Cache = Cache(l2: Option<(nat, seq<byte>)>, unpacked: Option<(nat, seq<byte>)>)

  function Max(a: nat, b: nat): nat { if a < b then b else a }

  function Min(a: nat, b: nat): nat { if a < b then a else b }

  // ---- the device ----

  function DevRead(c: Core, off: nat, n: nat): (r: Result<seq<byte>>)
    ensures r.Ok? ==> |r.value| == n
  {
    if off + n <= |c.dev| then Ok(c.dev[off..off + n]) else Err(Io)
  }

  function DevWrite(c: Core, off: nat, buf: seq<byte>): Out<Core, ()> {
    if off + |buf| <= |c.dev| then
      Good(
        c.(dev := Put(c.dev, off, buf), imageLen := Max(c.imageLen, off + |buf|),
           log := c.log + [Patch(c.dev, off, buf)]),
        ())
    else Bad(c, Io)
  }

  function Grown(m: seq<byte>, len: nat): (r: seq<byte>)
    requires |m| <= len
    ensures |r| == len
    ensures forall p :: 0 <= p < len ==> r[p] == if p < |m| then m[p] else 0
  {
    m + Zeros(len - |m|)
  }

  function DevGrowForCluster(c: Core, hostOff: nat): Out<Core, ()> {
    var end := hostOff + c.h.ClusterSize();
    if |c.dev| >= end then Good(c, ())
    else if end > c.cap then Bad(c, Io)
    else Good(c.(dev := Grown(c.dev, end), log := c.log + [Extend(c.dev, end)]), ())
  }

  // ---- refcounts ----

  datatype Location = InBlock(blockOff: nat, byteInBlock: nat) | PastTableCoverage | BlockNotAllocated

  function LocateRefcountEntry(c: Core, hostOff: nat): Result<Location> {
    if !Wide16(c.h) then Err(WideRefcounts)
    else
      var idx := Div(hostOff, c.h.ClusterSize());
      var b, e := Div(idx, EntriesPerBlock(c.h)), Mod(idx, EntriesPerBlock(c.h));
      if c.h.refcountTableOffset == 0 || c.h.refcountTableClusters == 0 then Err(NoRefcountTable)
      else if 8 * b >= Mul(c.h.refcountTableClusters, c.h.ClusterSize()) then Ok(PastTableCoverage)
      else
        var entry :- DevRead(c, c.h.refcountTableOffset + 8 * b, 8);
        if Decode(entry) == 0 then Ok(BlockNotAllocated) else Ok(InBlock(Decode(entry), 2 * e))
  }

  function ReadRefcount(c: Core, hostOff: nat): Result<nat> {
    var loc :- LocateRefcountEntry(c, hostOff);
    if !loc.InBlock? then Ok(0)
    else
      var entry :- DevRead(c, loc.blockOff + loc.byteInBlock, 2);
      Ok(Decode(entry))
  }

  function DecrementRefcount(c: Core, hostOff: nat): Out<Core, ()> {
    match LocateRefcountEntry(c, hostOff)
    case Err(e) => Bad(c, e)
    case Ok(PastTableCoverage) => Bad(c, PastCoverage)
    case Ok(BlockNotAllocated) => Bad(c, BlockAbsent)
    case Ok(InBlock(blockOff, o)) =>
      match DevRead(c, blockOff + o, 2)
      case Err(e) => Bad(c, e)
      case Ok(entry) =>
        if Decode(entry) == 0 then Bad(c, ZeroRefcount)
        else
          var (c1, _) :- DevWrite(c, blockOff + o, Encode(Decode(entry) - 1, 2));
          if Decode(entry) == 1 then
            Good(c1.(cursor := Min(c1.cursor, Div(hostOff, c.h.ClusterSize()))), ())
          else Good(c1, ())
  }

  // ---- allocation ----

  function LoadRoot(c: Core): Out<Core, seq<byte>> {
    if c.root.Some? then Good(c, c.root.value)
    else
      var size := Mul(c.h.refcountTableClusters, c.h.ClusterSize());
      if c.h.refcountTableOffset + size > |c.dev| then Bad(c, RefcountTableOutside)
      else
        var bytes := c.dev[c.h.refcountTableOffset..c.h.refcountTableOffset + size];
        Good(c.(root := Some(bytes)), bytes)
  }

  /** The first entry from e on whose count is zero. */
  function FirstZero(block: seq<byte>, e: nat, n: nat): Option<nat>
    decreases n - e
  {
    if e >= n then None
    else if Decode(Slice(block, 2 * e, 2)) == 0 then Some(e)
    else FirstZero(block, e + 1, n)
  }

  /** The first refcount table entry from b on that names no block. */
  function FirstAbsent(root: seq<byte>, b: nat): (r: Option<nat>)
    ensures r.Some? ==> 8 * r.value + 8 <= |root|
    decreases |root| - b
  {
    if 8 * b + 8 > |root| then None
    else if Word(root, b) == 0 then Some(b)
    else FirstAbsent(root, b + 1)
  }

  datatype Free = Free(blockOff: nat, b: nat, e: nat)

  /** The first free entry of the present blocks, from entry e of block b on. */
  function ScanTable(c: Core, root: seq<byte>, b: nat, e: nat): Result<Option<Free>>
    decreases |root| - b
  {
    if 8 * b + 8 > |root| then Ok(None)
    else if Word(root, b) == 0 then ScanTable(c, root, b + 1, 0)
    else
      var block :- DevRead(c, Word(root, b), c.h.ClusterSize());
      match FirstZero(block, e, EntriesPerBlock(c.h))
      case Some(f) => Ok(Some(Free(Word(root, b), b, f)))
      case None => ScanTable(c, root, b + 1, 0)
  }

  function ClaimEntry(c: Core, f: Free): Out<Core, nat> {
    var idx := EntryCluster(c.h, f.b, f.e);
    var hostOff := Mul(idx, c.h.ClusterSize());
    if idx == 0 then Bad(c, HeaderFree)
    else
      var (c1, _) :- DevGrowForCluster(c, hostOff);
      var (c2, _) :- DevWrite(c1, f.blockOff + 2 * f.e, Encode(1, 2));
      Good(c2.(cursor := idx + 1), hostOff)
  }

  function AddBlock(c: Core, root: seq<byte>, b: nat): Out<Core, nat>
    requires 8 * b + 8 <= |root|
  {
    var block := EntryCluster(c.h, b, 0);
    var blockOff := Mul(block, c.h.ClusterSize());
    var callerOff := Mul(block + 1, c.h.ClusterSize());
    var (c1, _) :- DevGrowForCluster(c, callerOff);
    var (c2, _) :- DevWrite(c1, blockOff, FreshBlock(c.h.ClusterSize()));
    var (c3, _) :- DevWrite(c2, c.h.refcountTableOffset + 8 * b, Encode(blockOff, 8));
    Good(c3.(root := Some(Put(root, 8 * b, Encode(blockOff, 8))), cursor := block + 2), callerOff)
  }

  function AllocateCluster(c: Core): Out<Core, nat> {
    if !Wide16(c.h) then Bad(c, WideRefcounts)
    else if c.h.refcountTableOffset == 0 || c.h.refcountTableClusters == 0 then Bad(c, NoRefcountTable)
    else
      var (c1, root) :- LoadRoot(c);
      var n := EntriesPerBlock(c.h);
      match ScanTable(c1, root, Div(c.cursor, n), Mod(c.cursor, n))
      case Err(e) => Bad(c1, e)
      case Ok(Some(f)) => ClaimEntry(c1, f)
      case Ok(None) =>
        match FirstAbsent(root, 0)
        case None => Bad(c1, TableFull)
        case Some(b) => AddBlock(c1, root, b)
  }

  // ---- tables ----

  function UpdateL1Entry(c: Core, i: nat, w: u64): Out<Core, ()> {
    if i >= |c.l1| then Bad(c, L1Index)
    else
      var (c1, _) :- DevWrite(c, c.h.l1TableOffset + 8 * i, Encode(w, 8));
      Good(c1.(l1 := c1.l1[i := w]), ())
  }

  function AllocateL2Table(c: Core, i: nat): Out<Core, nat> {
    var (c1, off) :- AllocateCluster(c);
    var (c2, _) :- DevWrite(c1, off, Zeros(c.h.ClusterSize()));
    var (c3, _) :- UpdateL1Entry(c2, i, EntryFor(off));
    Good(c3, off)
  }

  function L2TableIsShared(c: Core, l1Entry: nat, tableOff: nat): Result<bool> {
    if Copied(l1Entry) then Ok(false)
    else
      var n :- ReadRefcount(c, tableOff);
      Ok(n > 1)
  }

  /** A private copy of the L2 table at tableOff, with entry i of the L1 table pointed at it. */
  function CopyL2Table(c: Core, i: nat, tableOff: nat): Out<Core, nat> {
    match DevRead(c, tableOff, c.h.ClusterSize())
    case Err(e) => Bad(c, e)
    case Ok(bytes) =>
      var (c1, copyOff) :- AllocateCluster(c);
      var (c2, _) :- DevWrite(c1, copyOff, bytes);
      var (c3, _) :- UpdateL1Entry(c2, i, EntryFor(copyOff));
      Good(DecrementRefcount(c3, tableOff).s, copyOff)
  }

  /** The L2 table entry i of the L1 table names, allocated if there is none. */
  function FindL2Table(c: Core, i: nat): Out<Core, nat>
    requires i < |c.l1|
  {
    match L2TableOffset(c.h, c.imageLen, c.l1[i])
    case Err(e) => Bad(c, e)
    case Ok(Some(off)) => Good(c, off)
    case Ok(None) => AllocateL2Table(c, i)
  }

  /** The L2 table entry i names, once nothing but the active L1 table reaches it. */
  function OwnL2Table(c: Core, i: nat): Out<Core, nat>
    requires i < |c.l1|
  {
    var (c1, off) :- FindL2Table(c, i);
    match L2TableIsShared(c1, c.l1[i], off)
    case Err(e) => Bad(c1, e)
    case Ok(shared) => if shared then CopyL2Table(c1, i, off) else Good(c1, off)
  }

  function UpdateL2Entry(c: Core, i: nat, j: nat, w: u64): Out<Core, ()> {
    if i >= |c.l1| then Bad(c, L1Index)
    else
      var (c1, off) :- OwnL2Table(c, i);
      DevWrite(c1, off + 8 * j, Encode(w, 8))
  }

  // ---- reading ----

  function ReadL2Entry(c: Core, ca: Cache, i: nat, tableOff: nat, j: nat): Out<Cache, nat> {
    if ca.l2.Some? && ca.l2.value.0 == i then Good(ca, Word(ca.l2.value.1, j))
    else
      match DevRead(c, tableOff, c.h.ClusterSize())
      case Err(e) => Bad(ca, e)
      case Ok(bytes) => Good(ca.(l2 := Some((i, bytes))), Word(bytes, j))
  }

  function LookupCluster(c: Core, ca: Cache, virt: nat): Out<Cache, ClusterMap> {
    var a := SplitVirtual(c.h, virt);
    if a.l1Index >= |c.l1| then Bad(ca, L1Index)
    else
      match L2TableOffset(c.h, c.imageLen, c.l1[a.l1Index])
      case Err(e) => Bad(ca, e)
      case Ok(None) => Good(ca, Unallocated)
      case Ok(Some(off)) =>
        var (ca1, entry) :- ReadL2Entry(c, ca, a.l1Index, off, a.l2Index);
        match Classify(c.h, c.imageLen, Copied(c.l1[a.l1Index]), entry)
        case Err(e) => Bad(ca1, e)
        case Ok(m) => Good(ca1, m)
  }

  function ReadDecompressedSlice(c: Core, ca: Cache, vc: nat, off: nat, span: nat, skip: nat, n: nat)
    : Out<Cache, seq<byte>>
  {
    if ca.unpacked.Some? && ca.unpacked.value.0 == vc then Good(ca, Slice(ca.unpacked.value.1, skip, n))
    else
      match DevRead(c, off, span)
      case Err(e) => Bad(ca, e)
      case Ok(payload) =>
        match Unpack(c.h, c.codec, payload)
        case Err(e) => Bad(ca, e)
        case Ok(out) => Good(ca.(unpacked := Some((vc, out))), Slice(out, skip, n))
  }

  /** A step on the first image of a chain leaves the caches of its parents alone. */
  function Lift<T>(o: Out<Cache, T>, ca: seq<Cache>): (r: Out<seq<Cache>, T>)
    requires ca != []
    ensures |r.s| == |ca|
  {
    match o
    case Good(x, v) => Good([x] + ca[1..], v)
    case Bad(x, e) => Bad([x] + ca[1..], e)
  }

  /** An image and its backing chain, nearest parent first, with a cache for each. */
  function ReadAt(ch: seq<Core>, ca: seq<Cache>, off: nat, n: nat): (r: Out<seq<Cache>, seq<byte>>)
    requires |ch| == |ca| > 0
    ensures |r.s| == |ca|
    decreases |ch|, 3, n
  {
    if n == 0 then Good(ca, [])
    else if off + n >= 0x1_0000_0000_0000_0000 then Bad(ca, OffsetOverflow)
    else if off + n > ch[0].h.virtualSize then Bad(ca, OutOfBounds)
    else ReadLoop(ch, ca, off, n)
  }

  function ChunkLen(h: Header, cursor: nat, n: nat): (k: nat)
    ensures k <= n && (n > 0 ==> k > 0) && Mod(cursor, h.ClusterSize()) + k <= h.ClusterSize()
  {
    Min(h.ClusterSize() - Mod(cursor, h.ClusterSize()), n)
  }

  function ReadLoop(ch: seq<Core>, ca: seq<Cache>, cursor: nat, n: nat): (r: Out<seq<Cache>, seq<byte>>)
    requires |ch| == |ca| > 0
    ensures |r.s| == |ca|
    decreases |ch|, 2, n
  {
    if n == 0 then Good(ca, [])
    else
      var k := ChunkLen(ch[0].h, cursor, n);
      var (ca1, b) :- ReadChunk(ch, ca, cursor, k);
      match ReadLoop(ch, ca1, cursor + k, n - k)
      case Bad(ca2, e) => Bad(ca2, e)
      case Good(ca2, rest) => Good(ca2, b + rest)
  }

  function ReadChunk(ch: seq<Core>, ca: seq<Cache>, cursor: nat, n: nat): (r: Out<seq<Cache>, seq<byte>>)
    requires |ch| == |ca| > 0
    ensures |r.s| == |ca|
    decreases |ch|, 1, n
  {
    var a := SplitVirtual(ch[0].h, cursor);
    match LookupCluster(ch[0], ca[0], cursor)
    case Bad(x, e) => Bad([x] + ca[1..], e)
    case Good(x, m) =>
      var ca1 := [x] + ca[1..];
      match m
      case Plain(host, _) =>
        (match DevRead(ch[0], host + a.offsetInCluster, n)
         case Err(e) => Bad(ca1, e)
         case Ok(b) => Good(ca1, b))
      case Packed(off, span) =>
        Lift(ReadDecompressedSlice(ch[0], x, a.virtCluster, off, span, a.offsetInCluster, n), ca1)
      case Zero => Good(ca1, Zeros(n))
      case Unallocated => ReadUnallocated(ch, ca1, cursor, n)
  }

  function ReadUnallocated(ch: seq<Core>, ca: seq<Cache>, virt: nat, n: nat): (r: Out<seq<Cache>, seq<byte>>)
    requires |ch| == |ca| > 0
    ensures |r.s| == |ca|
    decreases |ch|, 0, n
  {
    if |ch| == 1 || virt >= ch[1].h.virtualSize then Good(ca, Zeros(n))
    else
      var k := Min(n, ch[1].h.virtualSize - virt);
      match ReadAt(ch[1..], ca[1..], virt, k)
      case Bad(below, e) => Bad([ca[0]] + below, e)
      case Good(below, b) => Good([ca[0]] + below, b + Zeros(n - k))
  }

  // ---- writing ----

  datatype Seed = SeedZeros | SeedBacking | SeedHost(hostOff: nat) | SeedPacked(hostOff: nat, byteLen: nat)

  datatype Plan = InPlace(hostOff: nat) | Reallocate(seed: Seed, release: Option<nat>)

  function PlanWrite(c: Core, m: ClusterMap): Result<Plan> {
    match m
    case Plain(host, copied) =>
      if copied then Ok(InPlace(host))
      else
        var n :- ReadRefcount(c, host);
        if n > 1 then Ok(Reallocate(SeedHost(host), Some(host))) else Ok(InPlace(host))
    case Packed(off, span) => Ok(Reallocate(SeedPacked(off, span), Some(off)))
    case Zero => Ok(Reallocate(SeedZeros, None))
    case Unallocated => Ok(Reallocate(SeedBacking, None))
  }

  function SeedCluster(ch: seq<Core>, ca: seq<Cache>, virt: nat, seed: Seed): (r: Out<seq<Cache>, seq<byte>>)
    requires |ch| == |ca| > 0
    ensures |r.s| == |ca|
  {
    var cs := ch[0].h.ClusterSize();
    match seed
    case SeedZeros => Good(ca, Zeros(cs))
    case SeedHost(host) =>
      (match DevRead(ch[0], host, cs)
       case Err(e) => Bad(ca, e)
       case Ok(b) => Good(ca, b))
    case SeedPacked(off, span) => Lift(ReadDecompressedSlice(ch[0], ca[0], Div(virt, cs), off, span, 0, cs), ca)
    case SeedBacking => ReadUnallocated(ch, ca, Mul(Div(virt, cs), cs), cs)
  }

  /** full with src spliced in at o. */
  function Splice(full: seq<byte>, o: nat, src: seq<byte>): seq<byte> {
    if o + |src| <= |full| then Put(full, o, src) else full
  }

  /** The image being written, its parents, and a cache for each of them. */
  datatype State = State(core: Core, parents: seq<Core>, caches: seq<Cache>)

  predicate Paired(st: State) { |st.caches| == 1 + |st.parents| }

  /** Publish a filled cluster, then drop the share of the one it replaces. */
  function Publish(c: Core, cursor: nat, host: nat, full: seq<byte>, release: Option<nat>): Out<Core, ()> {
    var a := SplitVirtual(c.h, cursor);
    var (c1, _) :- DevWrite(c, host, full);
    var (c2, _) :- UpdateL2Entry(c1, a.l1Index, a.l2Index, EntryFor(host));
    if release.Some? then Good(DecrementRefcount(c2, release.value).s, ()) else Good(c2, ())
  }

  function ReallocateChunk(st: State, cursor: nat, src: seq<byte>, seed: Seed, release: Option<nat>)
    : (r: Out<State, ()>)
    requires Paired(st)
    ensures Paired(r.s)
  {
    var o := SplitVirtual(st.core.h, cursor).offsetInCluster;
    match SeedCluster([st.core] + st.parents, st.caches, cursor, seed)
    case Bad(ca, e) => Bad(st.(caches := ca), e)
    case Good(ca, seeded) =>
      match AllocateCluster(st.core)
      case Bad(c1, e) => Bad(st.(core := c1, caches := ca), e)
      case Good(c1, host) =>
        match Publish(c1, cursor, host, Splice(seeded, o, src), release)
        case Bad(c2, e) => Bad(st.(core := c2, caches := ca), e)
        case Good(c2, _) => Good(st.(core := c2, caches := [Cache(None, None)] + ca[1..]), ())
  }

  function WriteChunk(st: State, cursor: nat, src: seq<byte>): (r: Out<State, ()>)
    requires Paired(st)
    ensures Paired(r.s)
  {
    var o := SplitVirtual(st.core.h, cursor).offsetInCluster;
    match LookupCluster(st.core, st.caches[0], cursor)
    case Bad(x, e) => Bad(st.(caches := [x] + st.caches[1..]), e)
    case Good(x, m) =>
      var st1 := st.(caches := [x] + st.caches[1..]);
      match PlanWrite(st.core, m)
      case Err(e) => Bad(st1, e)
      case Ok(InPlace(host)) =>
        (match DevWrite(st.core, host + o, src)
         case Bad(_, e) => Bad(st1, e)
         case Good(c1, _) => Good(st1.(core := c1), ()))
      case Ok(Reallocate(seed, release)) => ReallocateChunk(st1, cursor, src, seed, release)
  }

  function WriteLoop(st: State, cursor: nat, buf: seq<byte>): (r: Out<State, ()>)
    requires Paired(st)
    ensures Paired(r.s)
    decreases |buf|
  {
    if buf == [] then Good(st, ())
    else
      var k := ChunkLen(st.core.h, cursor, |buf|);
      var (st1, _) :- WriteChunk(st, cursor, buf[..k]);
      WriteLoop(st1, cursor + k, buf[k..])
  }

  function WriteAt(st: State, writable: bool, off: nat, buf: seq<byte>): (r: Out<State, ()>)
    requires Paired(st)
    ensures Paired(r.s)
  {
    if !writable then Bad(st, ReadOnly)
    else if buf == [] then Good(st, ())
    else if off + |buf| >= 0x1_0000_0000_0000_0000 then Bad(st, OffsetOverflow)
    else if off + |buf| > st.core.h.virtualSize then Bad(st, OutOfBounds)
    else WriteLoop(st, off, buf)
  }
}
