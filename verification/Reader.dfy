/** The reader as an object: its fields, and methods that change them as the functions of Engine say.

    The device is a field: bytes that are written in place and grow at the end. Each method's contract gives the
    whole new state; what those states mean is proved about Engine's functions. */
module Reader {
  import opened Bytes
  import opened Arith
  import opened Format
  import opened Engine
  import opened Extents
  import opened Opening
  import opened Runs
  import opened Chunks
  import opened Histories

  /** What comes before a result that is still being read. */
  ghost function Prefixed(b: seq<byte>, o: Out<seq<Cache>, seq<byte>>): Out<seq<Cache>, seq<byte>> {
    match o
    case Good(s, rest) => Good(s, b + rest)
    case Bad(s, e) => Bad(s, e)
  }

  lemma PrefixedTwice(a: seq<byte>, b: seq<byte>, o: Out<seq<Cache>, seq<byte>>)
    ensures Prefixed(a, Prefixed(b, o)) == Prefixed(a + b, o)
  {
    if o.Good? { assert a + (b + o.v) == (a + b) + o.v; }
  }

  lemma PrefixedByNothing(o: Out<seq<Cache>, seq<byte>>)
    ensures Prefixed([], o) == o
  {
    if o.Good? { assert [] + o.v == o.v; }
  }

  /** A read loop once a chunk gave a. */
  ghost function Turned(ch: seq<Core>, a: Out<seq<Cache>, seq<byte>>, v: nat, n: nat, out: seq<byte>)
    : Out<seq<Cache>, seq<byte>>
    requires |ch| == |a.s| > 0
  {
    match a
    case Bad(s, e) => Bad(s, e)
    case Good(s, b) => Prefixed(out + b, ReadLoop(ch, s, v, n))
  }

  lemma ReadTurn(ch: seq<Core>, ca: seq<Cache>, v: nat, n: nat, out: seq<byte>)
    requires |ch| == |ca| > 0
    ensures n == 0 ==> Prefixed(out, ReadLoop(ch, ca, v, n)) == Good(ca, out)
    ensures n > 0 ==>
              var k := ChunkLen(ch[0].h, v, n);
              Prefixed(out, ReadLoop(ch, ca, v, n)) == Turned(ch, Engine.ReadChunk(ch, ca, v, k), v + k, n - k, out)
  {
    hide Engine.ReadChunk;
    if n == 0 {
      assert out + [] == out;
    } else {
      var k := ChunkLen(ch[0].h, v, n);
      var a := Engine.ReadChunk(ch, ca, v, k);
      if a.Good? { PrefixedTwice(out, a.v, ReadLoop(ch, a.s, v + k, n - k)); }
    }
  }

  class Qcow2Reader {
    const h: Header
    const codec: Codec
    const cap: nat
    const writable: bool
    const backing: Qcow2Reader?
    ghost const repr: set<Qcow2Reader>

    var dev: seq<byte>
    var l1: seq<u64>
    var l2Cache: Option<(nat, seq<byte>)>
    var unpackCache: Option<(nat, seq<byte>)>
    var imageLen: nat
    var root: Option<seq<byte>>
    var cursor: nat
    ghost var log: seq<DevStep>

    /** The backing chain is finite. */
    ghost predicate Valid()
      decreases repr
    {
      && this in repr
      && (backing != null ==>
            backing in repr && backing.repr < repr && this !in backing.repr && backing.Valid())
    }

    ghost function Now(): Core
      reads this
    {
      Core(h, codec, cap, dev, l1, imageLen, root, cursor, log)
    }

    ghost function Caching(): Cache
      reads this
    {
      Cache(l2Cache, unpackCache)
    }

    ghost function Parents(): seq<Core>
      requires Valid()
      reads if backing == null then {} else backing.repr
      decreases repr, 0
    {
      if backing == null then [] else backing.Cores()
    }

    /** This image and its backing chain. */
    ghost function Cores(): (s: seq<Core>)
      requires Valid()
      reads repr
      ensures s != [] && s[0] == Now() && s[1..] == Parents()
      decreases repr, 1
    {
      [Now()] + Parents()
    }

    ghost function ParentCaches(): (s: seq<Cache>)
      requires Valid()
      reads if backing == null then {} else backing.repr
      ensures |s| == |Parents()|
      decreases repr, 0
    {
      if backing == null then [] else backing.Caches()
    }

    ghost function Caches(): (s: seq<Cache>)
      requires Valid()
      reads repr
      ensures |s| == |Cores()| && s[0] == Caching() && s[1..] == ParentCaches()
      decreases repr, 1
    {
      [Caching()] + ParentCaches()
    }

    ghost function Whole(): (s: State)
      requires Valid()
      reads repr
      ensures Paired(s)
    {
      State(Now(), Parents(), Caches())
    }

    /** A reader of these bytes over an open parent, with nothing cached. */
    constructor (h: Header, codec: Codec, cap: nat, bytes: seq<byte>, writable: bool, backing: Qcow2Reader?)
      requires backing != null ==> backing.Valid()
      ensures Valid() && repr == {this} + (if backing == null then {} else backing.repr)
      ensures this.writable == writable && this.backing == backing
      ensures Now() == Core(h, codec, cap, bytes, ReadL1(h, bytes), |bytes|, None, 0, [])
      ensures Caching() == Cache(None, None)
    {
      this.h, this.codec, this.cap, this.writable, this.backing := h, codec, cap, writable, backing;
      repr := {this} + (if backing == null then {} else backing.repr);
      dev, imageLen := bytes, |bytes|;
      l1 := ReadL1(h, bytes);
      l2Cache, unpackCache, root, cursor, log := None, None, None, 0, [];
    }

    /** Opens the image in place i and the chain under it, the parents read-only; depth bounds the chain. */
    static method OpenInner(files: Files, i: nat, writable: bool, depth: nat) returns (r: Result<Qcow2Reader>)
      ensures var o := OpenChain(files, i, writable, depth);
              if r.Err? then o == Err(r.error)
              else r.value.Valid() && fresh(r.value.repr) && r.value.writable == writable
                   && o == Ok(r.value.Cores()) && r.value.Caching() == Cache(None, None)
      decreases depth
    {
      hide HeaderBytes, ParseHeader, CheckSupported, CheckWritable, ReadL1, Engine.DevRead;
      var im :- files(i);
      if depth == 0 { return Err(BackingTooDeep); }
      var head :- HeaderBytes(im.bytes);
      var header :- ParseHeader(head);
      var _ :- CheckSupported(header);
      if writable {
        var _ :- CheckWritable(header);
      }
      if header.l1TableOffset + 8 * header.l1Size > |im.bytes| { return Err(L1TableOutside); }
      var backing: Qcow2Reader? := null;
      if HasBacking(header) {
        var _ :- ReadBackingName(header, im.bytes);
        backing :- OpenInner(files, i + 1, false, depth - 1);
      }
      ghost var under := if backing == null then [] else backing.Cores();
      var reader := new Qcow2Reader(header, im.codec, im.cap, im.bytes, writable, backing);
      assert reader.Parents() == under;
      assert OpenImage(im, writable) == Ok(reader.Now()) && [reader.Now()] + [] == [reader.Now()];
      return Ok(reader);
    }

    /** The image in place 0 for reading, or for reading and writing. */
    static method Open(files: Files, writable: bool) returns (r: Result<Qcow2Reader>)
      ensures var o := OpenChain(files, 0, writable, MAX_BACKING_DEPTH);
              if r.Err? then o == Err(r.error)
              else r.value.Valid() && fresh(r.value.repr) && r.value.writable == writable
                   && o == Ok(r.value.Cores()) && r.value.Caching() == Cache(None, None)
    {
      r := OpenInner(files, 0, writable, MAX_BACKING_DEPTH);
    }

    // ---- the device ----

    method DevRead(off: nat, n: nat) returns (r: Result<seq<byte>>)
      ensures r == Engine.DevRead(Now(), off, n)
    {
      if off + n <= |dev| { return Ok(dev[off..off + n]); }
      return Err(Io);
    }

    method DevWrite(off: nat, buf: seq<byte>) returns (r: Result<()>)
      modifies `dev, `imageLen, `log
      ensures var o := Engine.DevWrite(old(Now()), off, buf); r == o.Outcome() && Now() == o.s
    {
      if off + |buf| > |dev| { return Err(Io); }
      log := log + [Patch(dev, off, buf)];
      dev := Put(dev, off, buf);
      if off + |buf| > imageLen { imageLen := off + |buf|; }
      return Ok(());
    }

    method DevGrowForCluster(hostOff: nat) returns (r: Result<()>)
      modifies `dev, `log
      ensures var o := Engine.DevGrowForCluster(old(Now()), hostOff); r == o.Outcome() && Now() == o.s
    {
      var end := hostOff + h.ClusterSize();
      if |dev| >= end { return Ok(()); }
      if end > cap { return Err(Io); }
      log := log + [Extend(dev, end)];
      dev := Grown(dev, end);
      return Ok(());
    }

    // ---- refcounts ----

    method LocateRefcountEntry(hostOff: nat) returns (r: Result<Location>)
      ensures r == Engine.LocateRefcountEntry(Now(), hostOff)
    {
      if !Wide16(h) { return Err(WideRefcounts); }
      var idx := Div(hostOff, h.ClusterSize());
      var b, e := Div(idx, EntriesPerBlock(h)), Mod(idx, EntriesPerBlock(h));
      if h.refcountTableOffset == 0 || h.refcountTableClusters == 0 { return Err(NoRefcountTable); }
      if 8 * b >= Mul(h.refcountTableClusters, h.ClusterSize()) { return Ok(PastTableCoverage); }
      var entry :- DevRead(h.refcountTableOffset + 8 * b, 8);
      if Decode(entry) == 0 { return Ok(BlockNotAllocated); }
      return Ok(InBlock(Decode(entry), 2 * e));
    }

    method ReadRefcount(hostOff: nat) returns (r: Result<nat>)
      ensures r == Engine.ReadRefcount(Now(), hostOff)
    {
      var loc :- LocateRefcountEntry(hostOff);
      match loc
      case PastTableCoverage => return Ok(0);
      case BlockNotAllocated => return Ok(0);
      case InBlock(blockOff, o) =>
        var entry :- DevRead(blockOff + o, 2);
        return Ok(Decode(entry));
    }

    method DecrementRefcount(hostOff: nat) returns (r: Result<()>)
      modifies `dev, `imageLen, `cursor, `log
      ensures var o := Engine.DecrementRefcount(old(Now()), hostOff); r == o.Outcome() && Now() == o.s
    {
      var loc :- LocateRefcountEntry(hostOff);
      match loc
      case PastTableCoverage => return Err(PastCoverage);
      case BlockNotAllocated => return Err(BlockAbsent);
      case InBlock(blockOff, o) =>
        var entry :- DevRead(blockOff + o, 2);
        var count := Decode(entry);
        if count == 0 { return Err(ZeroRefcount); }
        r := DevWrite(blockOff + o, Encode(count - 1, 2));
        if r.Ok? && count == 1 { cursor := Min(cursor, Div(hostOff, h.ClusterSize())); }
    }

    // ---- allocation ----

    /** The refcount table, read once and kept. */
    method LoadRoot() returns (r: Result<seq<byte>>)
      modifies `root
      ensures var o := Engine.LoadRoot(old(Now())); r == o.Outcome() && Now() == o.s
    {
      if root.Some? { return Ok(root.value); }
      var size := Mul(h.refcountTableClusters, h.ClusterSize());
      if h.refcountTableOffset + size > |dev| { return Err(RefcountTableOutside); }
      root := Some(dev[h.refcountTableOffset..h.refcountTableOffset + size]);
      return Ok(root.value);
    }

    method FirstAbsent(table: seq<byte>) returns (r: Option<nat>)
      ensures r == Engine.FirstAbsent(table, 0)
    {
      var b := 0;
      while 8 * b + 8 <= |table|
        invariant Engine.FirstAbsent(table, 0) == Engine.FirstAbsent(table, b)
        decreases |table| - b
      {
        if Word(table, b) == 0 { return Some(b); }
        b := b + 1;
      }
      return None;
    }

    method ClaimEntry(f: Free) returns (r: Result<nat>)
      modifies `dev, `imageLen, `cursor, `log
      ensures var o := Engine.ClaimEntry(old(Now()), f); r == o.Outcome() && Now() == o.s
    {
      hide Encode, EntryCluster, Mul, Engine.DevWrite, Engine.DevGrowForCluster;
      var idx := EntryCluster(h, f.b, f.e);
      if idx == 0 { return Err(HeaderFree); }
      var hostOff := Mul(idx, h.ClusterSize());
      var _ :- DevGrowForCluster(hostOff);
      var _ :- DevWrite(f.blockOff + 2 * f.e, Encode(1, 2));
      cursor := idx + 1;
      return Ok(hostOff);
    }

    method AddBlock(table: seq<byte>, b: nat) returns (r: Result<nat>)
      requires 8 * b + 8 <= |table|
      modifies `dev, `imageLen, `root, `cursor, `log
      ensures var o := Engine.AddBlock(old(Now()), table, b); r == o.Outcome() && Now() == o.s
    {
      hide Put, Encode, FreshBlock, EntryCluster, Mul, Engine.DevWrite, Engine.DevGrowForCluster;
      var block := EntryCluster(h, b, 0);
      var blockOff, callerOff := Mul(block, h.ClusterSize()), Mul(block + 1, h.ClusterSize());
      var w := DevGrowForCluster(callerOff);
      if w.Ok? { w := DevWrite(blockOff, FreshBlock(h.ClusterSize())); }
      if w.Ok? { w := DevWrite(h.refcountTableOffset + 8 * b, Encode(blockOff, 8)); }
      if w.Ok? {
        root := Some(Put(table, 8 * b, Encode(blockOff, 8)));
        cursor := block + 2;
      }
      r := if w.Ok? then Ok(callerOff) else Err(w.error);
    }

    method FirstZero(block: seq<byte>, first: nat, n: nat) returns (r: Option<nat>)
      ensures r == Engine.FirstZero(block, first, n)
    {
      var e := first;
      while e < n
        invariant e >= 0 && Engine.FirstZero(block, first, n) == Engine.FirstZero(block, e, n)
        decreases n - e
      {
        if Decode(Slice(block, 2 * e, 2)) == 0 { return Some(e); }
        e := e + 1;
      }
      return None;
    }

    /** Walks the refcount blocks the table names, from entry firstEntry of block firstBlock on. */
    method ScanTable(table: seq<byte>, firstBlock: nat, firstEntry: nat) returns (r: Result<Option<Free>>)
      ensures r == Engine.ScanTable(Now(), table, firstBlock, firstEntry)
    {
      hide Word, Engine.DevRead, Engine.FirstZero;
      var b: nat, e: nat := firstBlock, firstEntry;
      while 8 * b + 8 <= |table|
        invariant Engine.ScanTable(Now(), table, firstBlock, firstEntry) == Engine.ScanTable(Now(), table, b, e)
        decreases |table| - b
      {
        var blockOff := Word(table, b);
        if blockOff != 0 {
          var block :- DevRead(blockOff, h.ClusterSize());
          var free := FirstZero(block, e, EntriesPerBlock(h));
          if free.Some? { return Ok(Some(Free(blockOff, b, free.value))); }
        }
        b, e := b + 1, 0;
      }
      return Ok(None);
    }

    /** Claims the first free entry from the cursor on; when there is none, adds a block in the first gap. */
    method AllocateCluster() returns (r: Result<nat>)
      modifies `dev, `imageLen, `root, `cursor, `log
      ensures var o := Engine.AllocateCluster(old(Now())); r == o.Outcome() && Now() == o.s
    {
      hide Mul, Div, Mod, Engine.LoadRoot, Engine.ScanTable, Engine.FirstAbsent, Engine.ClaimEntry, Engine.AddBlock;
      if !Wide16(h) { return Err(WideRefcounts); }
      if h.refcountTableOffset == 0 || h.refcountTableClusters == 0 { return Err(NoRefcountTable); }
      var table :- LoadRoot();
      var absent := FirstAbsent(table);
      var n := EntriesPerBlock(h);
      var free :- ScanTable(table, Div(cursor, n), Mod(cursor, n));
      if free.Some? {
        r := ClaimEntry(free.value);
      } else if absent.Some? {
        r := AddBlock(table, absent.value);
      } else {
        r := Err(TableFull);
      }
    }

    // ---- tables ----

    method UpdateL1Entry(i: nat, w: u64) returns (r: Result<()>)
      modifies `dev, `imageLen, `l1, `log
      ensures var o := Engine.UpdateL1Entry(old(Now()), i, w); r == o.Outcome() && Now() == o.s
    {
      if i >= |l1| { return Err(L1Index); }
      var _ :- DevWrite(h.l1TableOffset + 8 * i, Encode(w, 8));
      l1 := l1[i := w];
      return Ok(());
    }

    method AllocateL2Table(i: nat) returns (r: Result<nat>)
      modifies `dev, `imageLen, `l1, `root, `cursor, `log
      ensures var o := Engine.AllocateL2Table(old(Now()), i); r == o.Outcome() && Now() == o.s
    {
      var off :- AllocateCluster();
      var _ :- DevWrite(off, Zeros(h.ClusterSize()));
      var _ :- UpdateL1Entry(i, EntryFor(off));
      return Ok(off);
    }

    method L2TableIsShared(l1Entry: nat, tableOff: nat) returns (r: Result<bool>)
      ensures r == Engine.L2TableIsShared(Now(), l1Entry, tableOff)
    {
      if Copied(l1Entry) { return Ok(false); }
      var n :- ReadRefcount(tableOff);
      return Ok(n > 1);
    }

    method CopyL2Table(i: nat, tableOff: nat) returns (r: Result<nat>)
      modifies `dev, `imageLen, `l1, `root, `cursor, `log
      ensures var o := Engine.CopyL2Table(old(Now()), i, tableOff); r == o.Outcome() && Now() == o.s
    {
      var bytes :- DevRead(tableOff, h.ClusterSize());
      var copyOff :- AllocateCluster();
      var _ :- DevWrite(copyOff, bytes);
      var _ :- UpdateL1Entry(i, EntryFor(copyOff));
      var _ := DecrementRefcount(tableOff);
      return Ok(copyOff);
    }

    /** The L2 table entry i of the L1 table names, allocated if there is none. */
    method FindL2Table(i: nat) returns (r: Result<nat>)
      requires i < |l1|
      modifies `dev, `imageLen, `l1, `root, `cursor, `log
      ensures var o := Engine.FindL2Table(old(Now()), i); r == o.Outcome() && Now() == o.s
    {
      hide Engine.AllocateL2Table, L2TableOffset;
      var named :- L2TableOffset(h, imageLen, l1[i]);
      if named.Some? { return Ok(named.value); }
      r := AllocateL2Table(i);
    }

    /** An L2 table for entry i that nothing else reaches. */
    method OwnL2Table(i: nat) returns (r: Result<nat>)
      requires i < |l1|
      modifies `dev, `imageLen, `l1, `root, `cursor, `log
      ensures var o := Engine.OwnL2Table(old(Now()), i); r == o.Outcome() && Now() == o.s
    {
      hide Engine.FindL2Table, Engine.CopyL2Table, Engine.L2TableIsShared;
      var l1Entry := l1[i];
      var tableOff :- FindL2Table(i);
      var shared :- L2TableIsShared(l1Entry, tableOff);
      if !shared { return Ok(tableOff); }
      r := CopyL2Table(i, tableOff);
    }

    /** Entry (i, j) is overwritten in a table nothing else reaches, and both caches are dropped. */
    method UpdateL2Entry(i: nat, j: nat, w: u64) returns (r: Result<()>)
      modifies `dev, `imageLen, `l1, `root, `cursor, `log, `l2Cache, `unpackCache
      ensures var o := Engine.UpdateL2Entry(old(Now()), i, j, w);
              && r == o.Outcome() && Now() == o.s
              && Caching() == if r.Ok? then Cache(None, None) else old(Caching())
    {
      hide Engine.OwnL2Table, Engine.DevWrite, Encode;
      if i >= |l1| { return Err(L1Index); }
      var tableOff :- OwnL2Table(i);
      r := DevWrite(tableOff + 8 * j, Encode(w, 8));
      if r.Ok? { l2Cache, unpackCache := None, None; }
    }

    // ---- reading ----

    method ReadL2Entry(i: nat, tableOff: nat, j: nat) returns (r: Result<nat>)
      modifies `l2Cache
      ensures var o := Engine.ReadL2Entry(Now(), old(Caching()), i, tableOff, j); r == o.Outcome() && Caching() == o.s
    {
      if l2Cache.None? || l2Cache.value.0 != i {
        var bytes :- DevRead(tableOff, h.ClusterSize());
        l2Cache := Some((i, bytes));
      }
      return Ok(Word(l2Cache.value.1, j));
    }

    method LookupCluster(virt: nat) returns (r: Result<ClusterMap>)
      modifies `l2Cache
      ensures var o := Engine.LookupCluster(Now(), old(Caching()), virt); r == o.Outcome() && Caching() == o.s
    {
      var a := SplitVirtual(h, virt);
      if a.l1Index >= |l1| { return Err(L1Index); }
      var l1Entry := l1[a.l1Index];
      var table :- L2TableOffset(h, imageLen, l1Entry);
      if table.None? { return Ok(Unallocated); }
      var entry :- ReadL2Entry(a.l1Index, table.value, a.l2Index);
      return Classify(h, imageLen, Copied(l1Entry), entry);
    }

    method ReadDecompressedSlice(vc: nat, off: nat, span: nat, skip: nat, n: nat) returns (r: Result<seq<byte>>)
      modifies `unpackCache
      ensures var o := Engine.ReadDecompressedSlice(Now(), old(Caching()), vc, off, span, skip, n);
              r == o.Outcome() && Caching() == o.s
    {
      if unpackCache.Some? && unpackCache.value.0 == vc { return Ok(Slice(unpackCache.value.1, skip, n)); }
      var payload :- DevRead(off, span);
      var out :- Unpack(h, codec, payload);
      unpackCache := Some((vc, out));
      return Ok(Slice(out, skip, n));
    }

    method ReadAt(off: nat, n: nat) returns (r: Result<seq<byte>>)
      requires Valid()
      modifies repr`l2Cache, repr`unpackCache
      ensures Cores() == old(Cores())
      ensures var o := Engine.ReadAt(Cores(), old(Caches()), off, n); r == o.Outcome() && Caches() == o.s
      ensures forall x | StateOK(x, old(Whole())) :: StateOK(x, Whole()) && ReadAnswer(Memory(Cores()), off, n, r)
      decreases repr, 3
    {
      hide ReadLoop, Engine.ReadChunk, ChunkLen, Prefixed, StateOK, ReadAnswer, Memory, Parents, ParentCaches;
      ReadMeans(Whole(), off, n);
      if n == 0 { return Ok([]); }
      if off + n >= 0x1_0000_0000_0000_0000 { return Err(OffsetOverflow); }
      if off + n > h.virtualSize { return Err(OutOfBounds); }
      var done := 0;
      var out: seq<byte> := [];
      ghost var whole := ReadLoop(Cores(), Caches(), off, n);
      PrefixedByNothing(whole);
      while done < n
        invariant done <= n && Cores() == old(Cores())
        invariant whole == Prefixed(out, ReadLoop(Cores(), Caches(), off + done, n - done))
      {
        var k := ChunkLen(h, off + done, n - done);
        ReadTurn(Cores(), Caches(), off + done, n - done, out);
        var b :- ReadChunk(off + done, k);
        out := out + b;
        done := done + k;
      }
      ReadTurn(Cores(), Caches(), off + done, 0, out);
      return Ok(out);
    }

    method ReadChunk(cursor: nat, n: nat) returns (r: Result<seq<byte>>)
      requires Valid()
      modifies repr`l2Cache, repr`unpackCache
      ensures Cores() == old(Cores())
      ensures var o := Engine.ReadChunk(Cores(), old(Caches()), cursor, n); r == o.Outcome() && Caches() == o.s
      decreases repr, 2
    {
      hide Engine.LookupCluster, Engine.DevRead, Engine.ReadDecompressedSlice, Engine.ReadUnallocated, SplitVirtual,
        Parents, ParentCaches;
      var a := SplitVirtual(h, cursor);
      var m :- LookupCluster(cursor);
      match m
      case Plain(host, _) => r := DevRead(host + a.offsetInCluster, n);
      case Packed(off, span) => r := ReadDecompressedSlice(a.virtCluster, off, span, a.offsetInCluster, n);
      case Zero => return Ok(Zeros(n));
      case Unallocated => r := ReadUnallocated(cursor, n);
    }

    method ReadUnallocated(virt: nat, n: nat) returns (r: Result<seq<byte>>)
      requires Valid()
      modifies repr`l2Cache, repr`unpackCache
      ensures Cores() == old(Cores())
      ensures var o := Engine.ReadUnallocated(Cores(), old(Caches()), virt, n); r == o.Outcome() && Caches() == o.s
      decreases repr, 1
    {
      if backing == null { return Ok(Zeros(n)); }
      if virt >= backing.h.virtualSize { return Ok(Zeros(n)); }
      var k := Min(n, backing.h.virtualSize - virt);
      var b :- backing.ReadAt(virt, k);
      return Ok(b + Zeros(n - k));
    }

    method ClusterStatusAt(virt: nat) returns (r: Result<ClusterStatus>)
      modifies `l2Cache
      ensures var o := StatusAt(Now(), Walk(old(Caching()), 0), virt);
              r == o.Outcome() && Caching() == o.s.cache && o.s.lookups <= 1
    {
      hide Engine.LookupCluster;
      if virt >= h.virtualSize { return Err(OutOfBounds); }
      var m :- LookupCluster(virt);
      return Ok(StatusOf(m));
    }

    // ---- writing ----

    method PlanWrite(m: ClusterMap) returns (r: Result<Plan>)
      ensures r == Engine.PlanWrite(Now(), m)
    {
      match m
      case Plain(host, copied) =>
        if copied { return Ok(InPlace(host)); }
        var n :- ReadRefcount(host);
        return Ok(if n > 1 then Reallocate(SeedHost(host), Some(host)) else InPlace(host));
      case Packed(off, span) => return Ok(Reallocate(SeedPacked(off, span), Some(off)));
      case Zero => return Ok(Reallocate(SeedZeros, None));
      case Unallocated => return Ok(Reallocate(SeedBacking, None));
    }

    method SeedCluster(virt: nat, seed: Seed) returns (r: Result<seq<byte>>)
      requires Valid()
      modifies repr`l2Cache, repr`unpackCache
      ensures Cores() == old(Cores())
      ensures var o := Engine.SeedCluster(Cores(), old(Caches()), virt, seed); r == o.Outcome() && Caches() == o.s
    {
      hide Engine.DevRead, Engine.ReadDecompressedSlice, Engine.ReadUnallocated;
      match seed
      case SeedZeros => return Ok(Zeros(h.ClusterSize()));
      case SeedHost(host) => r := DevRead(host, h.ClusterSize());
      case SeedPacked(off, span) =>
        r := ReadDecompressedSlice(Div(virt, h.ClusterSize()), off, span, 0, h.ClusterSize());
      case SeedBacking => r := ReadUnallocated(Mul(Div(virt, h.ClusterSize()), h.ClusterSize()), h.ClusterSize());
    }

    /** Data first, then the L2 entry, then the old cluster's share; a share that stays is only a leak. */
    method Publish(at: nat, host: nat, full: seq<byte>, release: Option<nat>) returns (r: Result<()>)
      modifies `dev, `imageLen, `l1, `root, `cursor, `log, `l2Cache, `unpackCache
      ensures var o := Engine.Publish(old(Now()), at, host, full, release);
              && r == o.Outcome() && Now() == o.s
              && Caching() == if r.Ok? then Cache(None, None) else old(Caching())
    {
      hide Engine.DevWrite, Engine.UpdateL2Entry, Engine.DecrementRefcount, SplitVirtual, EntryFor;
      var a := SplitVirtual(h, at);
      var _ :- DevWrite(host, full);
      r := UpdateL2Entry(a.l1Index, a.l2Index, EntryFor(host));
      assert r.Ok? ==> r.value == ();
      if r.Ok? && release.Some? { var _ := DecrementRefcount(release.value); }
    }

    method ReallocateChunk(at: nat, src: seq<byte>, seed: Seed, release: Option<nat>) returns (r: Result<()>)
      requires Valid()
      modifies `dev, `imageLen, `l1, `root, `cursor, `log, repr`l2Cache, repr`unpackCache
      ensures var o := Engine.ReallocateChunk(old(Whole()), at, src, seed, release); r == o.Outcome() && Whole() == o.s
    {
      hide Engine.SeedCluster, Engine.AllocateCluster, Engine.Publish, Splice, SplitVirtual, Parents, ParentCaches;
      ghost var st := Whole();
      var o := SplitVirtual(h, at).offsetInCluster;
      var seeded :- SeedCluster(at, seed);
      ghost var ca := Caches();
      assert Whole() == st.(caches := ca);
      var host :- AllocateCluster();
      assert Parents() == st.parents && ParentCaches() == ca[1..];
      r := Publish(at, host, Splice(seeded, o, src), release);
      assert Parents() == st.parents && ParentCaches() == ca[1..];
      assert r.Ok? ==> r.value == ();
      assert [ca[0]] + ca[1..] == ca;
    }

    method WriteChunk(at: nat, src: seq<byte>) returns (r: Result<()>)
      requires Valid()
      modifies `dev, `imageLen, `l1, `root, `cursor, `log, repr`l2Cache, repr`unpackCache
      ensures var o := Engine.WriteChunk(old(Whole()), at, src); r == o.Outcome() && Whole() == o.s
    {
      hide Engine.LookupCluster, Engine.PlanWrite, Engine.ReallocateChunk, SplitVirtual, Put, Parents, ParentCaches;
      ghost var st := Whole();
      var o := SplitVirtual(h, at).offsetInCluster;
      var m :- LookupCluster(at);
      ghost var ca := Caches();
      assert Whole() == st.(caches := ca) && ca == [Caching()] + st.caches[1..];
      var plan :- PlanWrite(m);
      if plan.InPlace? {
        r := DevWrite(plan.hostOff + o, src);
        assert Parents() == st.parents && ParentCaches() == ca[1..];
        assert r.Ok? ==> r.value == ();
      } else {
        r := ReallocateChunk(at, src, plan.seed, plan.release);
      }
    }

    method WriteAt(off: nat, buf: seq<byte>) returns (r: Result<()>)
      requires Valid()
      modifies `dev, `imageLen, `l1, `root, `cursor, `log, repr`l2Cache, repr`unpackCache
      ensures var o := Engine.WriteAt(old(Whole()), writable, off, buf); r == o.Outcome() && Whole() == o.s
      ensures forall x | StateOK(x, old(Whole())) ::
                StateOK(x, Whole()) && WriteAnswer(h, writable, Memory(old(Cores())), off, buf, r, Memory(Cores()))
    {
      hide WriteLoop, Engine.WriteChunk, ChunkLen, StateOK, WriteAnswer, Memory, Parents, ParentCaches;
      WriteMeans(Whole(), writable, off, buf);
      if !writable { return Err(ReadOnly); }
      if buf == [] { return Ok(()); }
      if off + |buf| >= 0x1_0000_0000_0000_0000 { return Err(OffsetOverflow); }
      if off + |buf| > h.virtualSize { return Err(OutOfBounds); }
      var written := 0;
      ghost var all := WriteLoop(Whole(), off, buf);
      assert buf[0..] == buf;
      while written < |buf|
        invariant 0 <= written <= |buf|
        invariant all == WriteLoop(Whole(), off + written, buf[written..])
      {
        var k := ChunkLen(h, off + written, |buf| - written);
        WriteTurn(Whole(), off + written, buf, written);
        var _ :- WriteChunk(off + written, buf[written..written + k]);
        written := written + k;
      }
      WriteTurn(Whole(), off + written, buf, written);
      return Ok(());
    }
  }

  lemma WriteMeans(st: State, writable: bool, off: nat, buf: seq<byte>)
    requires Paired(st)
    ensures var w := Engine.WriteAt(st, writable, off, buf);
            forall x | StateOK(x, st) ::
              StateOK(x, w.s)
              && WriteAnswer(st.core.h, writable, Memory(Chain(st)), off, buf, w.Outcome(), Memory(Chain(w.s)))
  {
    hide StateOK, WriteAnswer, Memory, Engine.WriteAt;
    forall x | StateOK(x, st)
      ensures var w := Engine.WriteAt(st, writable, off, buf);
              StateOK(x, w.s)
              && WriteAnswer(st.core.h, writable, Memory(Chain(st)), off, buf, w.Outcome(), Memory(Chain(w.s)))
    {
      WriteOK(x, st, writable, off, buf);
    }
  }

  lemma ReadMeans(st: State, off: nat, n: nat)
    requires Paired(st)
    ensures var r := Engine.ReadAt(Chain(st), st.caches, off, n);
            forall x | StateOK(x, st) ::
              StateOK(x, st.(caches := r.s)) && ReadAnswer(Memory(Chain(st)), off, n, r.Outcome())
  {
    hide StateOK, ReadAnswer, Memory, Engine.ReadAt;
    forall x | StateOK(x, st)
      ensures var r := Engine.ReadAt(Chain(st), st.caches, off, n);
              StateOK(x, st.(caches := r.s)) && ReadAnswer(Memory(Chain(st)), off, n, r.Outcome())
    {
      ReadOK(x, st, off, n);
    }
  }

  /** One turn of the write loop. */
  lemma WriteTurn(st: State, v: nat, buf: seq<byte>, written: nat)
    requires Paired(st) && written <= |buf|
    ensures written == |buf| ==> WriteLoop(st, v, buf[written..]) == Good(st, ())
    ensures written < |buf| ==>
              var k := ChunkLen(st.core.h, v, |buf| - written);
              var a := Engine.WriteChunk(st, v, buf[written..written + k]);
              var rest := if a.Bad? then Bad(a.s, a.e) else WriteLoop(a.s, v + k, buf[written + k..]);
              WriteLoop(st, v, buf[written..]) == rest
  {
    hide Engine.WriteChunk;
    if written < |buf| {
      var rest, k := buf[written..], ChunkLen(st.core.h, v, |buf| - written);
      assert rest[..k] == buf[written..written + k] && rest[k..] == buf[written + k..];
    }
  }

  /** A status looked up after n others is the same, and one more. */
  lemma OneMore(c: Core, ca: Cache, n: nat, v: nat)
    requires v < c.h.virtualSize
    ensures var a, b := StatusAt(c, Walk(ca, 0), v), StatusAt(c, Walk(ca, n), v);
            b.Outcome() == a.Outcome() && b.s == Walk(a.s.cache, n + 1)
  {
    hide Engine.LookupCluster;
  }

  /** A walk over the virtual disk, an extent at a time. */
  class ExtentIter {
    const reader: Qcow2Reader
    var cursor: nat
    ghost var lookups: nat

    ghost function Walked(): Walk
      reads this, reader
    {
      Walk(reader.Caching(), lookups)
    }

    constructor (reader: Qcow2Reader)
      ensures this.reader == reader && cursor == 0 && lookups == 0
    {
      this.reader, cursor, lookups := reader, 0, 0;
    }

    method Lookup(v: nat) returns (r: Result<ClusterStatus>)
      requires v < reader.h.virtualSize
      modifies `lookups, reader`l2Cache
      ensures var o := StatusAt(reader.Now(), old(Walked()), v); r == o.Outcome() && Walked() == o.s
      ensures reader.Now() == old(reader.Now())
    {
      OneMore(reader.Now(), reader.Caching(), lookups, v);
      r := reader.ClusterStatusAt(v);
      lookups := lookups + 1;
    }

    method Next() returns (item: Option<Result<Extent>>)
      modifies this, reader`l2Cache
      ensures var n := NextExtent(reader.Now(), old(Walked()), old(cursor));
              item == n.2 && cursor == n.1 && Walked() == n.0
      ensures reader.Now() == old(reader.Now())
    {
      hide StatusAt;
      var total := reader.h.virtualSize;
      if cursor >= total { return None; }
      var start := cursor;
      var first := Lookup(start);
      if first.Err? {
        cursor := total;
        return Some(Err(first.error));
      }
      var end := NextEnd(reader.h, start);
      ghost var grown := GrowExtent(reader.Now(), Walked(), first.value, end);
      while end < total
        invariant reader.Now() == old(reader.Now()) && cursor == start && end <= total
        invariant grown == GrowExtent(reader.Now(), Walked(), first.value, end)
        decreases total - end
      {
        var here := Lookup(end);
        if here.Err? {
          cursor := total;
          return Some(Err(here.error));
        }
        if here.value != first.value { break; }
        end := NextEnd(reader.h, end);
      }
      cursor := end;
      return Some(Ok(Extent(start, end - start, first.value)));
    }
  }
}
