/** Finding refcounts and free clusters from device bytes. */
module Scanning {
  import opened Bytes
  import opened Arith
  import opened Format
  import opened Accounting
  import opened Disk
  import opened DiskSteps
  import opened Images
  import opened Bridge
  import opened Engine
  import opened Safety

  // ---- where slot words lie on the device ----

  ghost function AddressOf(x: Context, d: Clusters, r: Slot): nat
    requires ValidSlot(x, r)
  {
    Mul(Home(x, d, r).0, x.h.ClusterSize()) + 8 * Home(x, d, r).1
  }

  lemma RootAddress(x: Context, d: Clusters, b: nat)
    requires Addressable(x.h) && ValidSlot(x, Block(b))
    ensures x.h.refcountTableOffset + 8 * b == AddressOf(x, d, Block(b))
  {
    Aligned(x.h.refcountTableOffset, x.h.ClusterSize());
    TableEntry(x.h.ClusterSize(), x.h.L2Entries(), RootCluster(x), b);
  }

  lemma L1Address(x: Context, d: Clusters, i: nat)
    requires Addressable(x.h) && ValidSlot(x, Table(0, i))
    ensures x.h.l1TableOffset + 8 * i == AddressOf(x, d, Table(0, i))
  {
    Aligned(x.h.l1TableOffset, x.h.ClusterSize());
    TableEntry(x.h.ClusterSize(), x.h.L2Entries(), L1(x, 0).cluster, i);
  }

  /** The words of the refcount table, of the active L1 table and of every L2 table are inside the image. */
  lemma HomeFits(x: Context, d: Clusters, len: nat, r: Slot)
    requires Addressable(x.h) && Legal(x, d, len) && ValidSlot(x, r) && Stored(x, d, r) && (r.Table? ==> r.k == 0)
    ensures AddressOf(x, d, r) + 8 <= len && Home(x, d, r).1 < x.h.L2Entries()
  {
    hide Mul, Div, Mod, Word;
    KeeperTouches(x, d, r);
    if r.Table? {
      L1Address(x, d, r.i);
    } else {
      var f := Keeper(x, d, r);
      assert LegalWord(x.h, f, SlotWord(x, d, f), len);
      if r.Data? { Aligned(HostOffset(SlotWord(x, d, f)), x.h.ClusterSize()); }
    }
  }

  lemma BlockFits(x: Context, d: Clusters, len: nat, b: nat)
    requires Legal(x, d, len) && ValidSlot(x, Block(b)) && SlotWord(x, d, Block(b)) != 0
    ensures SlotWord(x, d, Block(b)) == Mul(BlockCluster(x, d, b), x.h.ClusterSize())
    ensures Fits(x.h, BlockCluster(x, d, b), len)
  {
    assert LegalWord(x.h, Block(b), SlotWord(x, d, Block(b)), len);
    Aligned(SlotWord(x, d, Block(b)), x.h.ClusterSize());
  }

  lemma ReadWord(h: Header, m: seq<byte>, k: nat, j: nat)
    requires j < h.L2Entries() && Mul(k, h.ClusterSize()) + 8 * j + 8 <= |m|
    ensures Decode(m[Mul(k, h.ClusterSize()) + 8 * j..Mul(k, h.ClusterSize()) + 8 * j + 8]) == Word(At(Cl(h, m), k), j)
  {
    hide Mul, ByteOf;
    ReadCluster(h.ClusterSize(), m, k, 8 * j, 8);
    hide ClusterOf;
    assert At(Cl(h, m), k) == ClusterOf(h.ClusterSize(), m, k);
  }

  /** The eight bytes at a slot's address are its word. */
  lemma ReadSlot(x: Context, m: seq<byte>, len: nat, r: Slot)
    requires Addressable(x.h) && Legal(x, Cl(x.h, m), len) && len <= |m|
    requires ValidSlot(x, r) && Stored(x, Cl(x.h, m), r) && (r.Table? ==> r.k == 0)
    ensures AddressOf(x, Cl(x.h, m), r) + 8 <= |m|
    ensures Decode(m[AddressOf(x, Cl(x.h, m), r)..AddressOf(x, Cl(x.h, m), r) + 8]) == SlotWord(x, Cl(x.h, m), r)
  {
    hide Mul, Div, Mod, Word, Legal, Home, Decode, Cl, WellFormed;
    var (k, j) := Home(x, Cl(x.h, m), r);
    HomeFits(x, Cl(x.h, m), len, r);
    ReadWord(x.h, m, k, j);
  }

  /** Writing the eight bytes at a slot's address writes its word; quiet if no view changes. */
  lemma SlotWrite(x: Context, c: Core, r: Slot, w: u64, off: nat)
    requires DeviceOK(x, c) && ValidSlot(x, r) && Stored(x, D(c), r) && (r.Table? ==> r.k == 0)
    requires off == AddressOf(x, D(c), r)
    requires WellFormed(x, WithWord(x, D(c), r, w), c.imageLen) && SameContents(x, D(c), WithWord(x, D(c), r, w))
    ensures var o := DevWrite(c, off, Encode(w, 8));
            && o.Good? && D(o.s) == WithWord(x, D(c), r, w) && Quiet(x, c, o.s)
            && o.s == c.(dev := o.s.dev, imageLen := o.s.imageLen, log := o.s.log)
  {
    hide SlotWord, Content, Legal, Inv, ClustersOf, Mul, Encode, Home, Word, MetaOf, Stored, Put, ValidSlot, Keeper,
      SameContents, Quiet, DevWrite;
    var (k, j) := Home(x, D(c), r);
    HomeFits(x, D(c), c.imageLen, r);
    SmallWrite(x, c, k, 8 * j, Encode(w, 8), WithWord(x, D(c), r, w));
  }

  // ---- the resident refcount table ----

  ghost predicate RootIs(x: Context, d: Clusters, root: seq<byte>) {
    && |root| == 8 * RootEntries(x)
    && forall b | 0 <= b < RootEntries(x) :: Word(root, b) == SlotWord(x, d, Block(b))
  }

  /** Reading the table whole gives the words on the device. */
  lemma RootLoaded(x: Context, c: Core)
    requires DeviceOK(x, c) && (c.root.Some? ==> RootIs(x, D(c), c.root.value))
    ensures var r := LoadRoot(c);
            r.Good? ==> r.s == c.(root := Some(r.v)) && RootIs(x, D(c), r.v)
  {
    hide Content, Inv, SlotWord, Legal, Word, Mul;
    var r := LoadRoot(c);
    MulScale(c.h.refcountTableClusters, c.h.L2Entries(), c.h.ClusterSize());
    if r.Good? && c.root.None? {
      forall b | 0 <= b < RootEntries(x) ensures Word(r.v, b) == SlotWord(x, D(c), Block(b)) {
        LoadedWord(x, c, r.v, b);
      }
    }
  }

  lemma SliceOfSlice(m: seq<byte>, at: nat, len: nat, o: nat, n: nat)
    requires at + len <= |m| && o + n <= len
    ensures m[at..at + len][o..o + n] == m[at + o..at + o + n]
  {
    var whole, part := m[at..at + len], m[at + o..at + o + n];
    assert forall i :: 0 <= i < len ==> whole[i] == m[at + i];
    assert forall i :: 0 <= i < n ==> part[i] == whole[o + i];
    assert whole[o..o + n] == part;
  }

  lemma WordOfSlice(m: seq<byte>, a: nat, n: nat, i: nat)
    requires a + 8 * n <= |m| && i < n
    ensures Word(Slice(m, a, 8 * n), i) == Decode(m[a + 8 * i..a + 8 * i + 8])
  {
    hide Decode;
    SliceOfSlice(m, a, 8 * n, 8 * i, 8);
  }

  lemma LoadedWord(x: Context, c: Core, root: seq<byte>, b: nat)
    requires DeviceOK(x, c) && b < RootEntries(x) && |root| == 8 * RootEntries(x)
    requires c.h.refcountTableOffset + |root| <= |c.dev|
    requires root == c.dev[c.h.refcountTableOffset..c.h.refcountTableOffset + |root|]
    ensures Word(root, b) == SlotWord(x, D(c), Block(b))
  {
    hide Content, Inv, SlotWord, Legal, RootEntries, Mul, Decode, AddressOf, Home, Word, Cl, MetaOf;
    RootAddress(x, D(c), b);
    ReadSlot(x, c.dev, c.imageLen, Block(b));
    WordOfSlice(c.dev, c.h.refcountTableOffset, RootEntries(x), b);
    assert root == Slice(c.dev, c.h.refcountTableOffset, 8 * RootEntries(x));
  }

  // ---- scanning ----

  /** Entry y of the refcounts is kept in a block that exists. */
  ghost predicate Present(x: Context, d: Clusters, y: nat) {
    Div(y, EntriesPerBlock(x.h)) < RootEntries(x) && SlotWord(x, d, Block(Div(y, EntriesPerBlock(x.h)))) != 0
  }

  /** No present entry from lo up to hi is zero. */
  ghost predicate FullBetween(x: Context, d: Clusters, lo: nat, hi: nat) {
    forall y: nat | lo <= y < hi && Present(x, d, y) :: CountOf(x, d, y) > 0
  }

  ghost predicate FullFrom(x: Context, d: Clusters, lo: nat) {
    forall y: nat | lo <= y && Present(x, d, y) :: CountOf(x, d, y) > 0
  }

  lemma {:induction false} FirstZeroFinds(block: seq<byte>, e: nat, n: nat)
    ensures var r := FirstZero(block, e, n);
            && (r.Some? ==> e <= r.value < n && Decode(Slice(block, 2 * r.value, 2)) == 0)
            && forall f | e <= f < (if r.Some? then r.value else n) :: Decode(Slice(block, 2 * f, 2)) > 0
    decreases n - e
  {
    if e < n && Decode(Slice(block, 2 * e, 2)) != 0 {
      FirstZeroFinds(block, e + 1, n);
    }
  }

  lemma {:induction false} FirstAbsentFinds(x: Context, d: Clusters, root: seq<byte>, b: nat)
    requires RootIs(x, d, root) && b <= RootEntries(x)
    ensures var r := FirstAbsent(root, b);
            && (r.Some? ==> b <= r.value < RootEntries(x) && SlotWord(x, d, Block(r.value)) == 0)
            && forall f | b <= f < (if r.Some? then r.value else RootEntries(x)) :: SlotWord(x, d, Block(f)) != 0
    decreases RootEntries(x) - b
  {
    hide SlotWord, Word, RootEntries;
    if b < RootEntries(x) && Word(root, b) != 0 {
      FirstAbsentFinds(x, d, root, b + 1);
    }
  }

  lemma RangeOfBlock(h: Header, b: nat, y: nat)
    ensures EntryCluster(h, b, 0) <= y < EntryCluster(h, b + 1, 0) <==> Div(y, EntriesPerBlock(h)) == b
    ensures Div(y, EntriesPerBlock(h)) == b ==> y == EntryCluster(h, b, Mod(y, EntriesPerBlock(h)))
    ensures EntryCluster(h, b + 1, 0) == EntryCluster(h, b, EntriesPerBlock(h))
  {
    var n := EntriesPerBlock(h);
    DivMod(y, n);
    MulBound(b, Div(y, n), n, 0);
    MulMono(b, Div(y, n), n);
    MulMono(Div(y, n), b, n);
    MulMono(b + 1, Div(y, n), n);
    MulMono(Div(y, n) + 1, b, n);
  }

  lemma ReadWhole(h: Header, m: seq<byte>, k: nat)
    requires Fits(h, k, |m|)
    ensures m[Mul(k, h.ClusterSize())..Mul(k, h.ClusterSize()) + h.ClusterSize()] == At(Cl(h, m), k)
  {
    hide Mul, ByteOf;
    ReadCluster(h.ClusterSize(), m, k, 0, h.ClusterSize());
    assert At(Cl(h, m), k) == ClusterOf(h.ClusterSize(), m, k);
  }

  lemma BlockCounts(x: Context, c: Core, b: nat, e: nat)
    requires DeviceOK(x, c) && Wide16(x.h) && ValidSlot(x, Block(b)) && SlotWord(x, D(c), Block(b)) != 0
    requires e < EntriesPerBlock(x.h)
    ensures var block := DevRead(c, SlotWord(x, D(c), Block(b)), c.h.ClusterSize());
            block.Ok? && Decode(Slice(block.value, 2 * e, 2)) == CountOf(x, D(c), EntryCluster(x.h, b, e))
  {
    hide Content, Inv, Legal, SlotWord, ClusterOf, Mul, Div, Mod, Decode, Slice;
    BlockFits(x, D(c), c.imageLen, b);
    ReadWhole(c.h, c.dev, BlockCluster(x, D(c), b));
    EntryInverse(x.h, b, e, EntryCluster(x.h, b, e));
  }

  /** The scan stops at the first free entry of a present block, and passes over none. */
  lemma {:induction false} ScanFinds(x: Context, c: Core, root: seq<byte>, b: nat, e: nat)
    requires DeviceOK(x, c) && Wide16(x.h) && RootIs(x, D(c), root) && e < EntriesPerBlock(x.h)
    ensures ScanTable(c, root, b, e).Ok?
    ensures var r := ScanTable(c, root, b, e).value;
            if r.None? then FullFrom(x, D(c), EntryCluster(x.h, b, e))
            else
              && r.value.b < RootEntries(x) && r.value.e < EntriesPerBlock(x.h)
              && r.value.blockOff == SlotWord(x, D(c), Block(r.value.b)) != 0
              && CountOf(x, D(c), EntryCluster(x.h, r.value.b, r.value.e)) == 0
              && FullBetween(x, D(c), EntryCluster(x.h, b, e), EntryCluster(x.h, r.value.b, r.value.e))
    decreases |root| - b
  {
    hide SlotWord, Word, RootEntries, CountOf, WellFormed, EntriesPerBlock, EntryCluster, Mul, Div, Mod, FullBetween,
      FullFrom;
    if b >= RootEntries(x) {
      PastTheTable(x, D(c), b, e);
    } else if Word(root, b) == 0 {
      ScanFinds(x, c, root, b + 1, 0);
      SkipAbsent(x, D(c), b, e);
      ScanJoin(x, c, root, b, e);
    } else {
      ScanPresent(x, c, b, e);
      if FirstZero(DevRead(c, Word(root, b), c.h.ClusterSize()).value, e, EntriesPerBlock(c.h)).None? {
        ScanFinds(x, c, root, b + 1, 0);
        ScanJoin(x, c, root, b, e);
      }
    }
  }

  lemma PastTheTable(x: Context, d: Clusters, b: nat, e: nat)
    requires b >= RootEntries(x)
    ensures FullFrom(x, d, EntryCluster(x.h, b, e))
  {
    hide SlotWord, RootEntries;
    forall y: nat | EntryCluster(x.h, b, e) <= y ensures !Present(x, d, y) {
      DivMod(y, EntriesPerBlock(x.h));
      MulBound(Div(y, EntriesPerBlock(x.h)), b, EntriesPerBlock(x.h), Mod(y, EntriesPerBlock(x.h)));
    }
  }

  lemma SkipAbsent(x: Context, d: Clusters, b: nat, e: nat)
    requires b < RootEntries(x) && SlotWord(x, d, Block(b)) == 0
    ensures FullBetween(x, d, EntryCluster(x.h, b, e), EntryCluster(x.h, b + 1, 0))
  {
    hide SlotWord, RootEntries;
    forall y: nat | EntryCluster(x.h, b, e) <= y < EntryCluster(x.h, b + 1, 0) ensures !Present(x, d, y) {
      RangeOfBlock(x.h, b, y);
    }
  }

  lemma ScanPresent(x: Context, c: Core, b: nat, e: nat)
    requires DeviceOK(x, c) && Wide16(x.h) && ValidSlot(x, Block(b)) && SlotWord(x, D(c), Block(b)) != 0
    requires e < EntriesPerBlock(x.h)
    ensures var block := DevRead(c, SlotWord(x, D(c), Block(b)), c.h.ClusterSize());
            && block.Ok?
            && var r := FirstZero(block.value, e, EntriesPerBlock(c.h));
            if r.None? then FullBetween(x, D(c), EntryCluster(x.h, b, e), EntryCluster(x.h, b + 1, 0))
            else
              && r.value < EntriesPerBlock(x.h) && CountOf(x, D(c), EntryCluster(x.h, b, r.value)) == 0
              && FullBetween(x, D(c), EntryCluster(x.h, b, e), EntryCluster(x.h, b, r.value))
  {
    hide SlotWord, RootEntries, CountOf, WellFormed, Slice, Decode;
    var n := EntriesPerBlock(x.h);
    BlockCounts(x, c, b, e);
    var block := DevRead(c, SlotWord(x, D(c), Block(b)), c.h.ClusterSize()).value;
    FirstZeroFinds(block, e, n);
    var r := FirstZero(block, e, n);
    var stop := if r.Some? then r.value else n;
    forall y: nat | EntryCluster(x.h, b, e) <= y < EntryCluster(x.h, b, stop) ensures CountOf(x, D(c), y) > 0 {
      RangeOfBlock(x.h, b, y);
      BlockCounts(x, c, b, Mod(y, n));
    }
    if r.Some? { BlockCounts(x, c, b, r.value); }
    RangeOfBlock(x.h, b, 0);
  }

  lemma ScanJoin(x: Context, c: Core, root: seq<byte>, b: nat, e: nat)
    requires ScanTable(c, root, b + 1, 0).Ok?
    requires FullBetween(x, D(c), EntryCluster(x.h, b, e), EntryCluster(x.h, b + 1, 0))
    ensures FullFrom(x, D(c), EntryCluster(x.h, b + 1, 0)) ==> FullFrom(x, D(c), EntryCluster(x.h, b, e))
    ensures forall hi :: FullBetween(x, D(c), EntryCluster(x.h, b + 1, 0), hi) ==>
              FullBetween(x, D(c), EntryCluster(x.h, b, e), hi)
  {
    hide SlotWord, RootEntries, CountOf, EntryCluster, Present;
  }
}
