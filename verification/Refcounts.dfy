/** Reading and dropping refcounts on a well-formed image. */
module Refcounts {
  import opened Bytes
  import opened Arith
  import opened Format
  import opened Accounting
  import opened Disk
  import opened DiskSteps
  import opened Images
  import opened Bridge
  import opened Engine
  import opened Safety
  import opened Scanning
  import opened Allocator

  predicate HasRoot(h: Header) { h.refcountTableOffset != 0 && h.refcountTableClusters != 0 }

  /** A cluster with a count lives under a refcount table that is there. */
  lemma CountedHasRoot(x: Context, d: Clusters, len: nat, y: nat)
    requires WellFormed(x, d, len) && Addressable(x.h) && CountOf(x, d, y) > 0
    ensures HasRoot(x.h) && Div(y, EntriesPerBlock(x.h)) < RootEntries(x)
    ensures SlotWord(x, d, Block(Div(y, EntriesPerBlock(x.h)))) != 0
  {
    hide SlotWord, Legal, EntriesPerBlock;
    assert ValidSlot(x, Fixed(0, 0));
    OwnedApart(x, d, Fixed(0, 0), Fixed(1, 0), 0);
    assert RootCluster(x) != 0;
    assert Div(0, x.h.ClusterSize()) == 0;
  }

  lemma OwnedApart(x: Context, d: Clusters, f: Slot, s: Slot, c: nat)
    requires Exclusive(MetaOf(x, d)) && Owned(f) && f != s
    ensures ValidSlot(x, f) && ValidSlot(x, s) && Touches(RefOf(x, d, f), c) ==> !Touches(RefOf(x, d, s), c)
  {
    var m := MetaOf(x, d);
    assert ValidSlot(x, f) ==> f in m.refs && m.refs[f] == RefOf(x, d, f);
    assert ValidSlot(x, s) ==> s in m.refs && m.refs[s] == RefOf(x, d, s);
  }

  /** Where an entry is found on the device, or that there is none. */
  lemma LocateOK(x: Context, c: Core, off: nat)
    requires DeviceOK(x, c) && Wide16(x.h) && HasRoot(x.h)
    ensures var y := Div(off, x.h.ClusterSize());
            var b, e := Div(y, EntriesPerBlock(x.h)), Mod(y, EntriesPerBlock(x.h));
            var r := LocateRefcountEntry(c, off);
            && r.Ok?
            && r.value == if b >= RootEntries(x) then PastTableCoverage
                          else if SlotWord(x, D(c), Block(b)) == 0 then BlockNotAllocated
                          else InBlock(SlotWord(x, D(c), Block(b)), 2 * e)
  {
    hide SlotWord, Content, Inv, Legal, ClustersOf, Mul, Div, Mod, Decode, EntriesPerBlock, AddressOf, MetaOf, Word,
      SameContents;
    var b := Div(Div(off, x.h.ClusterSize()), EntriesPerBlock(x.h));
    MulScale(c.h.refcountTableClusters, c.h.L2Entries(), c.h.ClusterSize());
    if b < RootEntries(x) {
      RootAddress(x, D(c), b);
      ReadSlot(x, c.dev, c.imageLen, Block(b));
    }
  }

  lemma ReadCount(x: Context, c: Core, b: nat, e: nat)
    requires DeviceOK(x, c) && Wide16(x.h) && ValidSlot(x, Block(b)) && SlotWord(x, D(c), Block(b)) != 0
    requires e < EntriesPerBlock(x.h)
    ensures var r := DevRead(c, SlotWord(x, D(c), Block(b)) + 2 * e, 2);
            r.Ok? && Decode(r.value) == CountOf(x, D(c), EntryCluster(x.h, b, e))
  {
    hide SlotWord, Content, Inv, Legal, ClustersOf, Mul, Decode, EntriesPerBlock, CountOf;
    var at := SlotWord(x, D(c), Block(b));
    BlockFits(x, D(c), c.imageLen, b);
    BlockCounts(x, c, b, e);
    SliceOfSlice(c.dev, at, c.h.ClusterSize(), 2 * e, 2);
  }

  /** The refcount read for a host offset is the image's own. */
  lemma ReadRefcountOK(x: Context, c: Core, off: nat)
    requires DeviceOK(x, c)
    ensures var r := ReadRefcount(c, off);
            r.Ok? <==> Wide16(x.h) && HasRoot(x.h)
    ensures var r := ReadRefcount(c, off);
            r.Ok? ==> r.value == CountOf(x, D(c), Div(off, x.h.ClusterSize()))
  {
    hide SlotWord, Content, WellFormed, ClustersOf, Mul, Decode, EntriesPerBlock, CountAt;
    var y := Div(off, x.h.ClusterSize());
    if Wide16(x.h) && HasRoot(x.h) {
      LocateOK(x, c, off);
      CursorEntry(x.h, y);
      var b, e := Div(y, EntriesPerBlock(x.h)), Mod(y, EntriesPerBlock(x.h));
      if b < RootEntries(x) && SlotWord(x, D(c), Block(b)) != 0 { ReadCount(x, c, b, e); }
    }
  }

  ghost predicate KeepsOtherClaims(x: Context, d: Clusters, d': Clusters, n: nat) {
    forall y: nat | Claimed(x, d, y) && y != n :: Claimed(x, d', y) && At(d', y) == At(d, y)
  }

  /** One share of cluster y is gone. */
  ghost predicate Released(x: Context, d: Clusters, d': Clusters, y: nat) {
    && SameWords(x, d, d') && KeepsOtherClaims(x, d, d', y)
    && CountOf(x, d, y) > 0
    && (forall z: nat :: CountOf(x, d', z) == if z == y then CountOf(x, d, y) - 1 else CountOf(x, d, z))
    && (forall z: nat :: Slack(MetaOf(x, d'), z) == Slack(MetaOf(x, d), z) - Bit(z == y))
  }

  lemma ReleaseD(x: Context, d: Clusters, len: nat, b: nat, e: nat, y: nat)
    requires WellFormed(x, d, len) && Wide16(x.h) && ValidSlot(x, Block(b)) && SlotWord(x, d, Block(b)) != 0
    requires e < EntriesPerBlock(x.h) && y == EntryCluster(x.h, b, e)
    requires Slack(MetaOf(x, d), y) >= 1 && CountOf(x, d, y) < 0x1_0000
    ensures CountOf(x, d, y) > 0
    ensures WellFormed(x, WithCount(x, d, b, e, CountOf(x, d, y) - 1), len)
    ensures SameContents(x, d, WithCount(x, d, b, e, CountOf(x, d, y) - 1))
    ensures Released(x, d, WithCount(x, d, b, e, CountOf(x, d, y) - 1), y)
  {
    hide SlotWord, Content, CountOf, Legal, WithCount, EntryCluster, EntriesPerBlock, Users, Slots, Claimed, SameWords,
      SameContents;
    var m := MetaOf(x, d);
    var n := CountOf(x, d, y) - 1;
    SetCount(x, d, len, b, e, n);
    ReleaseInv(m, y);
    forall z: nat ensures CountOf(x, WithCount(x, d, b, e, n), z) == if z == y then n else CountOf(x, d, z) {
      RecountUsers(m, y, n, z);
    }
    forall z: nat | Claimed(x, d, z) && z != y
      ensures Claimed(x, WithCount(x, d, b, e, n), z) && At(WithCount(x, d, b, e, n), z) == At(d, z)
    {
      ReleaseKeeps(x, d, len, b, e, y, n, z);
    }
  }

  lemma ReleaseKeeps(x: Context, d: Clusters, len: nat, b: nat, e: nat, y: nat, n: nat, z: nat)
    requires WellFormed(x, d, len) && Wide16(x.h) && ValidSlot(x, Block(b)) && SlotWord(x, d, Block(b)) != 0
    requires e < EntriesPerBlock(x.h) && y == EntryCluster(x.h, b, e) && n < 0x1_0000
    requires Claimed(x, d, z) && z != y
    ensures Claimed(x, WithCount(x, d, b, e, n), z) && At(WithCount(x, d, b, e, n), z) == At(d, z)
  {
    hide SlotWord, Content, CountOf, Legal, Inv, EntryCluster;
    SetCount(x, d, len, b, e, n);
    RecountUsers(MetaOf(x, d), y, n, z);
    UnusedAlone(x, d, z);
    assert Touches(RefOf(x, d, Block(b)), BlockCluster(x, d, b));
  }

  /** The two bytes of a counted cluster's entry lose one; only the cursor moves besides. */
  lemma DecrementSteps(x: Context, c: Core, off: nat)
    requires CoreOK(x, c) && Wide16(x.h) && Slack(MetaOf(x, D(c)), Div(off, x.h.ClusterSize())) >= 1
    ensures var y, r := Div(off, x.h.ClusterSize()), DecrementRefcount(c, off);
            var b, e := Div(y, EntriesPerBlock(x.h)), Mod(y, EntriesPerBlock(x.h));
            && CountOf(x, D(c), y) > 0 && b < RootEntries(x)
            && var w := DevWrite(c, SlotWord(x, D(c), Block(b)) + 2 * e, Encode(CountOf(x, D(c), y) - 1, 2));
            && r.Good?
            && r.s == w.s.(cursor := if CountOf(x, D(c), y) == 1 then Min(c.cursor, y) else c.cursor)
            && Quiet(x, c, w.s) && Released(x, D(c), D(w.s), y)
            && w.s == c.(dev := w.s.dev, imageLen := w.s.imageLen, log := w.s.log)
  {
    hide SlotWord, Content, CountOf, WellFormed, MemoryOK, ClustersOf, Mul, Decode, Encode, EntriesPerBlock,
      EntryCluster, Div, Mod, Released, MetaOf, WithCount, Quiet, Slack, DevWrite, LocateRefcountEntry, RootEntries,
      Cl;
    var y := Div(off, x.h.ClusterSize());
    SlackCounted(x, D(c), y);
    CountedHasRoot(x, D(c), c.imageLen, y);
    var b, e := Div(y, EntriesPerBlock(x.h)), Mod(y, EntriesPerBlock(x.h));
    LocateOK(x, c, off);
    CursorEntry(x.h, y);
    ReadCount(x, c, b, e);
    TwoBytes(DevRead(c, SlotWord(x, D(c), Block(b)) + 2 * e, 2).value);
    DecrementWrite(x, c, b, e, y);
  }

  /** A share that is there is dropped, quietly; the cursor falls back to a cluster that came free. */
  lemma DecrementOK(x: Context, c: Core, off: nat)
    requires CoreOK(x, c) && Wide16(x.h) && Slack(MetaOf(x, D(c)), Div(off, x.h.ClusterSize())) >= 1
    ensures var r := DecrementRefcount(c, off);
            && r.Good? && Quiet(x, c, r.s) && CoreOK(x, r.s) && r.s.l1 == c.l1
            && Released(x, D(c), D(r.s), Div(off, x.h.ClusterSize()))
  {
    hide SlotWord, CountOf, WellFormed, Mul, Encode, EntriesPerBlock, Div, Mod, Released, MetaOf, RootIs, Slack,
      FullBetween, DevWrite, DecrementRefcount, SameContents, CrashesReadAs, RootEntries, Cl;
    var y := Div(off, x.h.ClusterSize());
    DecrementSteps(x, c, off);
    var b, e := Div(y, EntriesPerBlock(x.h)), Mod(y, EntriesPerBlock(x.h));
    var c1 := DevWrite(c, SlotWord(x, D(c), Block(b)) + 2 * e, Encode(CountOf(x, D(c), y) - 1, 2)).s;
    var r := DecrementRefcount(c, off);
    assert D(r.s) == D(c1);
    QuietMemory(x, c, c1, r.s);
    MemoryAfterRelease(x, c, r.s, y);
  }

  /** A refcount that is zero, or kept nowhere, is not decremented: which of the three it is is told, and nothing
      changes. */
  lemma DecrementRefused(x: Context, c: Core, off: nat)
    requires DeviceOK(x, c) && Wide16(x.h) && HasRoot(x.h) && CountOf(x, D(c), Div(off, x.h.ClusterSize())) == 0
    ensures var b := Div(Div(off, x.h.ClusterSize()), EntriesPerBlock(x.h));
            DecrementRefcount(c, off) == Bad(c, if b >= RootEntries(x) then PastCoverage
                                                else if SlotWord(x, D(c), Block(b)) == 0 then BlockAbsent
                                                else ZeroRefcount)
  {
    hide SlotWord, Content, WellFormed, ClustersOf, Mul, Decode, EntriesPerBlock, CountAt, Encode, Cl, RootEntries;
    var y := Div(off, x.h.ClusterSize());
    LocateOK(x, c, off);
    CursorEntry(x.h, y);
    var b, e := Div(y, EntriesPerBlock(x.h)), Mod(y, EntriesPerBlock(x.h));
    if b < RootEntries(x) && SlotWord(x, D(c), Block(b)) != 0 { ReadCount(x, c, b, e); }
  }

  lemma TwoBytes(s: seq<byte>)
    requires |s| == 2
    ensures Decode(s) < 0x1_0000
  {
    Pow256Values();
  }

  lemma SlackCounted(x: Context, d: Clusters, y: nat)
    requires Slack(MetaOf(x, d), y) >= 1
    ensures CountOf(x, d, y) >= 1
  {}

  lemma DecrementWrite(x: Context, c: Core, b: nat, e: nat, y: nat)
    requires DeviceOK(x, c) && Wide16(x.h) && ValidSlot(x, Block(b)) && SlotWord(x, D(c), Block(b)) != 0
    requires e < EntriesPerBlock(x.h) && y == EntryCluster(x.h, b, e)
    requires Slack(MetaOf(x, D(c)), y) >= 1 && CountOf(x, D(c), y) < 0x1_0000
    ensures CountOf(x, D(c), y) > 0
    ensures var r := DevWrite(c, SlotWord(x, D(c), Block(b)) + 2 * e, Encode(CountOf(x, D(c), y) - 1, 2));
            && r.Good? && Quiet(x, c, r.s) && r.s == c.(dev := r.s.dev, imageLen := r.s.imageLen, log := r.s.log)
            && Released(x, D(c), D(r.s), y)
  {
    hide SlotWord, Content, CountOf, Legal, ClustersOf, Mul, Encode, EntriesPerBlock, EntryCluster, Released, MetaOf,
      Inv, SameContents, Quiet, DevWrite, Put, Slots, RefOf, Cl, Slack, RootEntries;
    BlockFits(x, D(c), c.imageLen, b);
    ReleaseD(x, D(c), c.imageLen, b, e, y);
    var n := CountOf(x, D(c), y) - 1;
    SmallWrite(x, c, BlockCluster(x, D(c), b), 2 * e, Encode(n, 2), WithCount(x, D(c), b, e, n));
  }

  lemma MemoryAfterRelease(x: Context, c: Core, c': Core, y: nat)
    requires MemoryOK(x, c) && c'.l1 == c.l1 && c'.root == c.root && Released(x, D(c), D(c'), y)
    requires c'.cursor == if CountOf(x, D(c), y) == 1 then Min(c.cursor, y) else c.cursor
    ensures MemoryOK(x, c')
  {
    hide SlotWord, Content, CountOf, Word, KeepsOtherClaims, Slack;
    forall z: nat | z < c'.cursor && Present(x, D(c'), z) ensures CountOf(x, D(c'), z) > 0 {
      assert Present(x, D(c), z);
    }
  }
}
