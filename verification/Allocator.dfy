/** AllocateCluster on a well-formed image. */
module Allocator {
  import opened Bytes
  import opened Arith
  import opened Format
  import opened Accounting
  import opened Disk
  import opened DiskSteps
  import opened Images
  import opened Engine
  import opened Safety
  import opened Allocation
  import opened Scanning

  /** The resident copies agree with the device, and nothing present below the cursor is free. */
  ghost predicate MemoryOK(x: Context, c: Core) {
    && |c.l1| == x.h.l1Size
    && (forall i | 0 <= i < x.h.l1Size :: c.l1[i] == SlotWord(x, D(c), Table(0, i)))
    && (c.root.Some? ==> RootIs(x, D(c), c.root.value))
    && FullBetween(x, D(c), 0, c.cursor)
  }

  ghost predicate CoreOK(x: Context, c: Core) {
    DeviceOK(x, c) && MemoryOK(x, c)
  }

  /** Host offset off is a newly claimed cluster with room on the device. */
  ghost predicate Allocated(x: Context, c: Core, c': Core, off: nat) {
    var n := Div(off, x.h.ClusterSize());
    && off == Mul(n, x.h.ClusterSize()) && n > 0 && Fits(x.h, n, |c'.dev|)
    && Claims(x, D(c), D(c'), n)
  }

  lemma HeaderCounted(x: Context, d: Clusters, len: nat)
    requires WellFormed(x, d, len)
    ensures CountOf(x, d, 0) >= 1
  {
    hide SlotWord, CountOf, Legal;
    var m := MetaOf(x, d);
    assert ValidSlot(x, Fixed(0, 0));
    assert Fixed(0, 0) in m.refs && m.refs[Fixed(0, 0)] == One(0, false);
    UserCounted(m, Fixed(0, 0), 0);
    assert Count(m, 0) >= |Users(m, 0)|;
  }

  /** Only the refcounts of some clusters moved, from free to counted: the memory copies still agree. */
  lemma MemoryAfterClaim(x: Context, c: Core, c': Core, n: nat, root: seq<byte>)
    requires MemoryOK(x, c) && c'.l1 == c.l1 && c'.root == Some(root) && c'.cursor == n + 1
    requires KeepsTableWords(x, D(c), D(c')) && RootIs(x, D(c'), root)
    requires forall y: nat | y <= n && Present(x, D(c'), y) :: CountOf(x, D(c'), y) > 0
    ensures MemoryOK(x, c')
  {}

  lemma ClaimEntryOK(x: Context, c: Core, f: Free)
    requires CoreOK(x, c) && Wide16(x.h) && c.root.Some? && f.b < RootEntries(x) && f.e < EntriesPerBlock(x.h)
    requires f.blockOff == SlotWord(x, D(c), Block(f.b)) != 0
    requires CountOf(x, D(c), EntryCluster(x.h, f.b, f.e)) == 0
    requires FullBetween(x, D(c), 0, EntryCluster(x.h, f.b, f.e))
    ensures var r := ClaimEntry(c, f);
            && Quiet(x, c, r.s) && CoreOK(x, r.s) && r.s.l1 == c.l1
            && (r.Bad? ==> r.s == c)
            && (r.Good? ==> Allocated(x, c, r.s, r.v) && r.v == Mul(EntryCluster(x.h, f.b, f.e), x.h.ClusterSize()))
  {
    hide SlotWord, Content, CountOf, WellFormed, ClustersOf, Mul, Div, Mod, Decode, Encode, MetaOf, Claimed, Slack;
    var n := EntryCluster(x.h, f.b, f.e);
    HeaderCounted(x, D(c), c.imageLen);
    var g := DevGrowForCluster(c, Mul(n, c.h.ClusterSize()));
    GrowQuiet(x, c, Mul(n, c.h.ClusterSize()));
    if g.Good? {
      var r := ClaimEntry(c, f);
      ClaimWrite(x, g.s, f, n);
      QuietTrans(x, c, g.s, DevWrite(g.s, f.blockOff + 2 * f.e, Encode(1, 2)).s);
      QuietMemory(x, c, DevWrite(g.s, f.blockOff + 2 * f.e, Encode(1, 2)).s, r.s);
      MulDiv(n, c.h.ClusterSize());
      MemoryAfterClaim(x, c, r.s, n, c.root.value);
    }
  }

  /** The two bytes of a free entry are set to one. */
  lemma ClaimWrite(x: Context, c: Core, f: Free, n: nat)
    requires DeviceOK(x, c) && Wide16(x.h) && f.b < RootEntries(x) && f.e < EntriesPerBlock(x.h)
    requires f.blockOff == SlotWord(x, D(c), Block(f.b)) != 0
    requires n == EntryCluster(x.h, f.b, f.e) && CountOf(x, D(c), n) == 0
    ensures var r := DevWrite(c, f.blockOff + 2 * f.e, Encode(1, 2));
            && r.Good? && Quiet(x, c, r.s) && r.s == c.(dev := r.s.dev, imageLen := r.s.imageLen, log := r.s.log)
            && Claims(x, D(c), D(r.s), n) && SameWords(x, D(c), D(r.s))
            && (forall y: nat :: CountOf(x, D(r.s), y) == if y == n then 1 else CountOf(x, D(c), y))
  {
    hide SlotWord, Content, CountOf, Legal, ClustersOf, Mul, Decode, Encode, MetaOf, Claimed, Slack, RootEntries,
      EntriesPerBlock, Inv, AddressOf;
    var k := BlockCluster(x, D(c), f.b);
    BlockFits(x, D(c), c.imageLen, f.b);
    ClaimEntryD(x, D(c), c.imageLen, f.b, f.e);
    SmallWrite(x, c, k, 2 * f.e, Encode(1, 2), WithCount(x, D(c), f.b, f.e, 1));
  }

  // ---- growing a block ----

  lemma ClaimsAfterFill(x: Context, d: Clusters, d1: Clusters, d2: Clusters, n: nat)
    requires MetaOf(x, d1) == MetaOf(x, d) && SameWords(x, d, d1) && KeepsClaims(x, d, d1) && Claims(x, d1, d2, n)
    ensures Claims(x, d, d2, n)
  {
    hide SlotWord, CountOf, Content;
    forall y: nat ensures CountOf(x, d1, y) == CountOf(x, d, y) {
      assert Count(MetaOf(x, d1), y) == Count(MetaOf(x, d), y);
    }
  }

  lemma RootWriteOK(x: Context, c: Core, b: nat, first: nat, w: u64)
    requires DeviceOK(x, c) && Wide16(x.h) && ValidSlot(x, Block(b)) && SlotWord(x, D(c), Block(b)) == 0 && b > 0
    requires first == EntryCluster(x.h, b, 0) && w == Mul(first, x.h.ClusterSize()) && Fits(x.h, first, c.imageLen)
    requires At(D(c), first) == FreshBlock(x.h.ClusterSize())
    ensures var r := DevWrite(c, c.h.refcountTableOffset + 8 * b, Encode(w, 8));
            && r.Good? && Quiet(x, c, r.s) && r.s == c.(dev := r.s.dev, imageLen := r.s.imageLen, log := r.s.log)
            && Claims(x, D(c), D(r.s), first + 1) && OtherWordsSame(x, D(c), D(r.s), Block(b))
            && SlotWord(x, D(r.s), Block(b)) == w
            && forall y: nat :: CountOf(x, D(r.s), y) == if y == first || y == first + 1 then 1 else CountOf(x, D(c), y)
  {
    hide SlotWord, Content, CountOf, Legal, ClustersOf, Mul, Decode, Encode, MetaOf, Claims, FreshBlock, Home, WithWord,
      AddressOf, RootEntries, EntriesPerBlock, Put, Word;
    var d' := WithWord(x, D(c), Block(b), w);
    NextEntry(x.h, b);
    RootAddress(x, D(c), b);
    LinkBlockD(x, D(c), c.imageLen, b, first, first + 1, w, d');
    KeeperAlone(x, D(c), Block(b));
    WordWriteSelf(x, D(c), Block(b), w);
    SlotWrite(x, c, Block(b), w, c.h.refcountTableOffset + 8 * b);
  }

  /** The block is written, then published; the second cluster of its range is the caller's. */
  lemma AddBlockDevice(x: Context, c: Core, b: nat, first: nat, w: u64)
    requires DeviceOK(x, c) && Wide16(x.h) && ValidSlot(x, Block(b)) && SlotWord(x, D(c), Block(b)) == 0 && b > 0
    requires first == EntryCluster(x.h, b, 0) && w == Mul(first, x.h.ClusterSize()) && Fits(x.h, first, |c.dev|)
    ensures var r1 := DevWrite(c, w, FreshBlock(c.h.ClusterSize()));
            && r1.Good?
            && var r := DevWrite(r1.s, c.h.refcountTableOffset + 8 * b, Encode(w, 8));
            && r.Good? && Quiet(x, c, r.s) && r.s == c.(dev := r.s.dev, imageLen := r.s.imageLen, log := r.s.log)
            && Claims(x, D(c), D(r.s), first + 1) && OtherWordsSame(x, D(c), D(r.s), Block(b))
            && SlotWord(x, D(r.s), Block(b)) == w
            && forall y: nat :: CountOf(x, D(r.s), y) == if y == first || y == first + 1 then 1 else CountOf(x, D(c), y)
  {
    hide SlotWord, Content, CountOf, Legal, ClustersOf, Mul, Decode, Encode, Claimed, Slack, FreshBlock, Home, Claims,
      EntryCluster, SameContents, DevWrite, Put, Word, RootEntries, Slots, RefOf, Users;
    var cs := c.h.ClusterSize();
    EmptyRange(x, D(c), b, first, 0);
    Unused(MetaOf(x, D(c)), first);
    EmptyBlockClaims(x, D(c), c.imageLen, first, FreshBlock(cs));
    FillWrite(x, c, first, FreshBlock(cs));
    var c1 := DevWrite(c, w, FreshBlock(cs)).s;
    RootWriteOK(x, c1, b, first, w);
    var c2 := DevWrite(c1, c.h.refcountTableOffset + 8 * b, Encode(w, 8)).s;
    QuietTrans(x, c, c1, c2);
    ClaimsAfterFill(x, D(c), D(c1), D(c2), first + 1);
    forall y: nat ensures CountOf(x, D(c1), y) == CountOf(x, D(c), y) {
      assert Count(MetaOf(x, D(c1)), y) == Count(MetaOf(x, D(c)), y);
    }
  }

  lemma RootPut(x: Context, d: Clusters, d': Clusters, root: seq<byte>, b: nat, w: u64)
    requires RootIs(x, d, root) && b < RootEntries(x) && OtherWordsSame(x, d, d', Block(b))
    requires SlotWord(x, d', Block(b)) == w
    ensures RootIs(x, d', Put(root, 8 * b, Encode(w, 8)))
  {
    hide SlotWord, RootEntries, Word, Encode;
    forall f | 0 <= f < RootEntries(x) ensures Word(Put(root, 8 * b, Encode(w, 8)), f) == SlotWord(x, d', Block(f)) {
      WordPut(root, b, w, f);
    }
  }

  lemma FullAfterBlock(x: Context, d: Clusters, d': Clusters, b: nat, first: nat)
    requires FullFrom(x, d, 0) && OtherWordsSame(x, d, d', Block(b)) && b < RootEntries(x)
    requires first == EntryCluster(x.h, b, 0)
    requires forall y: nat :: CountOf(x, d', y) == if y == first || y == first + 1 then 1 else CountOf(x, d, y)
    ensures forall y: nat | y <= first + 1 && Present(x, d', y) :: CountOf(x, d', y) > 0
  {
    hide SlotWord, CountOf, RootEntries, EntryCluster, Div, Mod, EntriesPerBlock;
    forall y: nat | y <= first + 1 && Present(x, d', y) ensures CountOf(x, d', y) > 0 {
      RangeOfBlock(x.h, b, y);
      if y < first { assert Present(x, d, y); }
    }
  }

  /** Resident table and cursor follow a new block. */
  lemma MemoryAfterBlock(x: Context, c: Core, c': Core, root: seq<byte>, b: nat, first: nat, w: u64)
    requires MemoryOK(x, c) && c.root == Some(root) && b < RootEntries(x) && FullFrom(x, D(c), 0)
    requires first == EntryCluster(x.h, b, 0)
    requires OtherWordsSame(x, D(c), D(c'), Block(b)) && SlotWord(x, D(c'), Block(b)) == w
    requires forall y: nat :: CountOf(x, D(c'), y) == if y == first || y == first + 1 then 1 else CountOf(x, D(c), y)
    requires 8 * b + 8 <= |root|
    requires c'.l1 == c.l1 && c'.root == Some(Put(root, 8 * b, Encode(w, 8))) && c'.cursor == first + 2
    ensures MemoryOK(x, c')
  {
    hide SlotWord, CountOf, Cl, Encode, EntryCluster, RootIs, RootEntries, Present, Put, FullFrom;
    RootPut(x, D(c), D(c'), root, b, w);
    FullAfterBlock(x, D(c), D(c'), b, first);
    assert KeepsTableWords(x, D(c), D(c'));
    MemoryAfterClaim(x, c, c', first + 1, Put(root, 8 * b, Encode(w, 8)));
  }

  lemma AddRefused(c: Core, root: seq<byte>, b: nat)
    requires 8 * b + 8 <= |root|
    requires DevGrowForCluster(c, Mul(EntryCluster(c.h, b, 0) + 1, c.h.ClusterSize())).Bad?
    ensures AddBlock(c, root, b) == Bad(c, Io)
  {
    hide Mul, EntryCluster;
  }

  lemma AddBlockOK(x: Context, c: Core, root: seq<byte>, b: nat)
    requires CoreOK(x, c) && Wide16(x.h) && c.root == Some(root) && b < RootEntries(x)
    requires SlotWord(x, D(c), Block(b)) == 0 && FullFrom(x, D(c), 0) && 8 * b + 8 <= |root|
    ensures var r := AddBlock(c, root, b);
            && Quiet(x, c, r.s) && CoreOK(x, r.s) && r.s.l1 == c.l1
            && (r.Bad? ==> r.s == c)
            && (r.Good? ==> Allocated(x, c, r.s, r.v) && r.v == Mul(EntryCluster(x.h, b, 1), x.h.ClusterSize()))
  {
    hide SlotWord, CountOf, WellFormed, MemoryOK, ClustersOf, Mul, Div, Encode, FreshBlock, Claims, EntryCluster,
      SameContents, CrashesReadAs, RootEntries, Put, FullFrom, OtherWordsSame, DevWrite, DevGrowForCluster;
    QuietSelf(x, c);
    var cs := c.h.ClusterSize();
    var first := EntryCluster(c.h, b, 0);
    BlockNotFirst(x, D(c), c.imageLen, b);
    NextEntry(x.h, b);
    MulNext(first, cs);
    GrowQuiet(x, c, Mul(first + 1, cs));
    var g := DevGrowForCluster(c, Mul(first + 1, cs));
    if g.Good? {
      var w: u64 := Mul(first, cs);
      AddBlockDevice(x, g.s, b, first, w);
      var c2 := DevWrite(g.s, w, FreshBlock(cs)).s;
      var c3 := DevWrite(c2, c.h.refcountTableOffset + 8 * b, Encode(w, 8)).s;
      var r := AddBlock(c, root, b);
      QuietTrans(x, c, g.s, c3);
      QuietMemory(x, c, c3, r.s);
      MulDiv(first + 1, cs);
      MemoryAfterBlock(x, c, r.s, root, b, first, w);
    } else {
      AddRefused(c, root, b);
    }
  }

  lemma NextEntry(h: Header, b: nat)
    ensures EntryCluster(h, b, 1) == EntryCluster(h, b, 0) + 1
  {}

  lemma BlockNotFirst(x: Context, d: Clusters, len: nat, b: nat)
    requires WellFormed(x, d, len) && ValidSlot(x, Block(b)) && SlotWord(x, d, Block(b)) == 0
    ensures b > 0
  {
    hide SlotWord, Legal;
    HeaderCounted(x, d, len);
    EmptyRange(x, d, b, EntryCluster(x.h, b, 0), 0);
  }

  // ---- the whole allocator ----

  lemma AllocateOK(x: Context, c: Core)
    requires CoreOK(x, c)
    ensures var r := AllocateCluster(c);
            && Quiet(x, c, r.s) && CoreOK(x, r.s) && r.s.l1 == c.l1
            && (r.Bad? ==> r.s == c.(root := r.s.root))
            && (r.Good? ==> Wide16(x.h) && Allocated(x, c, r.s, r.v))
  {
    hide SlotWord, Content, CountOf, WellFormed, ClustersOf, Mul, Div, Mod, Decode, Encode, MetaOf, Claimed, Slack,
      Claims, EntryCluster, RootIs, ScanTable, FirstAbsent, FullBetween, FullFrom;
    QuietSelf(x, c);
    if Wide16(c.h) && c.h.refcountTableOffset != 0 && c.h.refcountTableClusters != 0 && LoadRoot(c).Good? {
      var (c1, root) := (LoadRoot(c).s, LoadRoot(c).v);
      RootLoaded(x, c);
      QuietMemory(x, c, c, c1);
      var n := EntriesPerBlock(c.h);
      var b, e := Div(c.cursor, n), Mod(c.cursor, n);
      ScanFinds(x, c1, root, b, e);
      DivMod(c.cursor, n);
      CursorEntry(c.h, c.cursor);
      FullJoin(x, D(c), c.cursor);
      FirstAbsentFinds(x, D(c), root, 0);
      if ScanTable(c1, root, b, e).value.Some? {
        ClaimEntryOK(x, c1, ScanTable(c1, root, b, e).value.value);
      } else if FirstAbsent(root, 0).Some? {
        AddBlockOK(x, c1, root, FirstAbsent(root, 0).value);
      }
    }
  }

  lemma CursorEntry(h: Header, y: nat)
    ensures EntryCluster(h, Div(y, EntriesPerBlock(h)), Mod(y, EntriesPerBlock(h))) == y
  {
    EntryInverse(h, Div(y, EntriesPerBlock(h)), Mod(y, EntriesPerBlock(h)), y);
  }

  /** What lies below the cursor and what the scan passed over make one full range. */
  lemma FullJoin(x: Context, d: Clusters, mid: nat)
    requires FullBetween(x, d, 0, mid)
    ensures FullFrom(x, d, mid) ==> FullFrom(x, d, 0)
    ensures forall hi :: FullBetween(x, d, mid, hi) ==> FullBetween(x, d, 0, hi)
  {
    hide CountOf, Present;
  }
}
