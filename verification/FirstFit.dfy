/** The allocator that resumes at its cursor, over a resident refcount table, is a plain first-fit search of the
    device from its first entry. */
module FirstFit {
  import opened Bytes
  import opened Arith
  import opened Format
  import opened Accounting
  import opened Disk
  import opened Images
  import opened Bridge
  import opened Engine
  import opened Safety
  import opened Allocation
  import opened Scanning
  import opened Allocator
  import opened Refcounts

  // ---- the resident refcount table is the device's ----

  lemma SameWordSameBytes(a: seq<byte>, b: seq<byte>, j: nat)
    requires 8 * j + 8 <= |a| && |b| == |a| && Word(a, j) == Word(b, j)
    ensures a[8 * j..8 * j + 8] == b[8 * j..8 * j + 8]
  {
    hide Encode;
    EncodeDecode(a[8 * j..8 * j + 8]);
    EncodeDecode(b[8 * j..8 * j + 8]);
  }

  lemma {:induction false} SameWordsSameBytes(a: seq<byte>, b: seq<byte>, n: nat)
    requires 8 * n <= |a| && |b| == |a| && forall j | 0 <= j < n :: Word(a, j) == Word(b, j)
    ensures a[..8 * n] == b[..8 * n]
  {
    hide Word;
    if n > 0 {
      SameWordsSameBytes(a, b, n - 1);
      SameWordSameBytes(a, b, n - 1);
      assert a[..8 * n] == a[..8 * (n - 1)] + a[8 * (n - 1)..8 * n];
      assert b[..8 * n] == b[..8 * (n - 1)] + b[8 * (n - 1)..8 * n];
    }
  }

  /** Loading the table is never refused, and gives the bytes on the device whether or not they were resident. */
  lemma RootResident(x: Context, c: Core)
    requires CoreOK(x, c)
    ensures LoadRoot(c).Good? && LoadRoot(c) == LoadRoot(c.(root := None))
  {
    hide SlotWord, Legal, Inv, Word, Mul, FullBetween, MetaOf, Cl;
    RootThere(x, c);
    RootInside(x, c);
    RootLoaded(x, c);
    RootLoaded(x, c.(root := None));
    if c.root.Some? {
      var a, b := c.root.value, LoadRoot(c.(root := None)).v;
      SameWordsSameBytes(a, b, RootEntries(x));
      assert a[..8 * RootEntries(x)] == a && b[..8 * RootEntries(x)] == b;
    }
  }

  lemma RootInside(x: Context, c: Core)
    requires DeviceOK(x, c) && HasRoot(x.h)
    ensures x.h.refcountTableOffset + Mul(x.h.refcountTableClusters, x.h.ClusterSize()) <= |c.dev|
  {
    hide Inv, MetaOf, Cl, SlotWord;
    var last := RootCluster(x) + x.h.refcountTableClusters - 1;
    assert ValidSlot(x, Fixed(1, last));
    assert LegalWord(x.h, Fixed(1, last), SlotWord(x, D(c), Fixed(1, last)), c.imageLen);
    Aligned(x.h.refcountTableOffset, x.h.ClusterSize());
    MulSum(RootCluster(x), x.h.refcountTableClusters, x.h.ClusterSize());
    MulNext(last, x.h.ClusterSize());
  }

  // ---- resuming ----

  /** A scan from the cursor and a scan from the first entry stop at the same place. */
  lemma SameScan(x: Context, c: Core, root: seq<byte>)
    requires DeviceOK(x, c) && Wide16(x.h) && RootIs(x, D(c), root) && FullBetween(x, D(c), 0, c.cursor)
    ensures ScanTable(c, root, Div(c.cursor, EntriesPerBlock(x.h)), Mod(c.cursor, EntriesPerBlock(x.h)))
         == ScanTable(c, root, 0, 0)
  {
    hide SlotWord, RootEntries, CountOf, WellFormed, EntriesPerBlock, EntryCluster, Mul, Div, Mod, FullBetween,
      FullFrom, RootIs, ScanTable, Cl;
    var n := EntriesPerBlock(x.h);
    var b, e := Div(c.cursor, n), Mod(c.cursor, n);
    DivMod(c.cursor, n);
    CursorEntry(x.h, c.cursor);
    FirstEntry(x.h);
    ScanFinds(x, c, root, b, e);
    ScanFinds(x, c, root, 0, 0);
    FullJoin(x, D(c), c.cursor);
    var r, s := ScanTable(c, root, b, e).value, ScanTable(c, root, 0, 0).value;
    if r.Some? { FreePlace(x, D(c), r.value.b, r.value.e); }
    if s.Some? { FreePlace(x, D(c), s.value.b, s.value.e); }
    if r.Some? && s.Some? {
      EntryInverse(x.h, r.value.b, r.value.e, EntryCluster(x.h, s.value.b, s.value.e));
      EntryInverse(x.h, s.value.b, s.value.e, EntryCluster(x.h, s.value.b, s.value.e));
    }
  }

  lemma FirstEntry(h: Header)
    ensures EntryCluster(h, 0, 0) == 0
  {}

  /** A free present entry ends every full range before it. */
  lemma FreePlace(x: Context, d: Clusters, b: nat, e: nat)
    requires e < EntriesPerBlock(x.h) && b < RootEntries(x) && SlotWord(x, d, Block(b)) != 0
    requires CountOf(x, d, EntryCluster(x.h, b, e)) == 0
    ensures !FullFrom(x, d, 0)
    ensures forall hi: nat | FullBetween(x, d, 0, hi) :: hi <= EntryCluster(x.h, b, e)
  {
    hide SlotWord, RootEntries, CountOf, EntryCluster, Div, Mod;
    EntryInverse(x.h, b, e, EntryCluster(x.h, b, e));
    assert Present(x, d, EntryCluster(x.h, b, e));
  }

  lemma {:induction false} ScanIgnoresCursor(c: Core, root: seq<byte>, b: nat, e: nat)
    ensures ScanTable(c.(cursor := 0), root, b, e) == ScanTable(c, root, b, e)
    decreases |root| - b
  {
    hide FirstZero, Word;
    if 8 * b + 8 <= |root| { ScanIgnoresCursor(c, root, b + 1, 0); }
  }

  ghost predicate SameButCursor<T>(r: Out<Core, T>, f: Out<Core, T>) {
    r.Outcome() == f.Outcome() && f.s == r.s.(cursor := 0)
  }

  lemma DeviceIgnoresCursor(c: Core, off: nat, buf: seq<byte>)
    ensures SameButCursor(DevWrite(c, off, buf), DevWrite(c.(cursor := 0), off, buf))
    ensures SameButCursor(DevGrowForCluster(c, off), DevGrowForCluster(c.(cursor := 0), off))
  {}

  lemma ClaimIgnoresCursor(c: Core, f: Free)
    ensures var r, s := ClaimEntry(c, f), ClaimEntry(c.(cursor := 0), f);
            SameButCursor(r, s.(s := s.s.(cursor := 0))) && (r.Good? ==> r == s)
  {
    hide Encode, EntryCluster, Mul, DevWrite, DevGrowForCluster;
    var n := Mul(EntryCluster(c.h, f.b, f.e), c.h.ClusterSize());
    DeviceIgnoresCursor(c, n, []);
    DeviceIgnoresCursor(DevGrowForCluster(c, n).s, f.blockOff + 2 * f.e, Encode(1, 2));
  }

  lemma AddIgnoresCursor(c: Core, root: seq<byte>, b: nat)
    requires 8 * b + 8 <= |root|
    ensures var r, s := AddBlock(c, root, b), AddBlock(c.(cursor := 0), root, b);
            SameButCursor(r, s.(s := s.s.(cursor := 0))) && (r.Good? ==> r == s)
  {
    hide Encode, EntryCluster, Mul, FreshBlock, DevWrite, DevGrowForCluster, Put;
    var block := EntryCluster(c.h, b, 0);
    var blockOff, callerOff := Mul(block, c.h.ClusterSize()), Mul(block + 1, c.h.ClusterSize());
    DeviceIgnoresCursor(c, callerOff, []);
    var c1 := DevGrowForCluster(c, callerOff).s;
    DeviceIgnoresCursor(c1, blockOff, FreshBlock(c.h.ClusterSize()));
    var c2 := DevWrite(c1, blockOff, FreshBlock(c.h.ClusterSize())).s;
    DeviceIgnoresCursor(c2, c.h.refcountTableOffset + 8 * b, Encode(blockOff, 8));
  }

  /** Everything the allocator remembers, forgotten. */
  function Forgetful(c: Core): Core { c.(root := None, cursor := 0) }

  /** Resuming changes no outcome and no device: the allocator without a cursor or a resident table answers the same,
      and when it succeeds it even leaves the same memory. */
  lemma ResumeIsFirstFit(x: Context, c: Core)
    requires CoreOK(x, c)
    ensures var r, f := AllocateCluster(c), AllocateCluster(Forgetful(c));
            && r.Outcome() == f.Outcome() && r.s.dev == f.s.dev && r.s.log == f.s.log
            && (r.Good? ==> r == f)
  {
    hide SlotWord, WellFormed, Mul, Div, Mod, ScanTable, FirstAbsent, FullBetween, FullFrom, RootIs, ClaimEntry,
      AddBlock, EntryCluster, EntriesPerBlock;
    if Wide16(x.h) {
      RootThere(x, c);
      RootResident(x, c);
      RootLoaded(x, c);
      var c1, root := LoadRoot(c).s, LoadRoot(c).v;
      SameScan(x, c1, root);
      ScanIgnoresCursor(c1, root, 0, 0);
      FromStart(EntriesPerBlock(x.h));
      hide LoadRoot;
      var scan := ScanTable(c1, root, 0, 0);
      if scan.Ok? && scan.value.Some? { ClaimIgnoresCursor(c1, scan.value.value); }
      if scan.Ok? && scan.value.None? && FirstAbsent(root, 0).Some? {
        AddIgnoresCursor(c1, root, FirstAbsent(root, 0).value);
      }
    }
  }

  lemma FromStart(n: nat)
    requires n > 0
    ensures Div(0, n) == 0 && Mod(0, n) == 0
  {
    DivModUnique(0, n, 0, 0);
  }

  // ---- which cluster, and when none ----

  /** Cluster n is the first free entry of a present block; or, when no present entry is free, the second entry of
      the first range that has no block. */
  ghost predicate FirstFree(x: Context, d: Clusters, n: nat) {
    || (Present(x, d, n) && CountOf(x, d, n) == 0 && FullBetween(x, d, 0, n))
    || (FullFrom(x, d, 0) && exists b: nat | b < RootEntries(x) ::
          && SlotWord(x, d, Block(b)) == 0 && n == EntryCluster(x.h, b, 1)
          && forall f: nat | f < b :: SlotWord(x, d, Block(f)) != 0)
  }

  /** Every table entry names a block and every refcount is taken. */
  ghost predicate TableIsFull(x: Context, d: Clusters) {
    FullFrom(x, d, 0) && forall b: nat | b < RootEntries(x) :: SlotWord(x, d, Block(b)) != 0
  }

  /** The allocator answers with the first free cluster, and says the table is full exactly when it is; otherwise it
      is refused only for a width it does not write, or when the device cannot grow to hold that cluster. */
  lemma AllocateFirst(x: Context, c: Core)
    requires CoreOK(x, c)
    ensures var r := AllocateCluster(c);
            && (r.Good? ==>
                  exists n: nat :: r.v == Mul(n, x.h.ClusterSize()) && FirstFree(x, D(c), n) && Fits(x.h, n, c.cap))
            && (r.Bad? ==> r.e == WideRefcounts || r.e == TableFull || r.e == Io)
            && (r.Bad? && r.e == WideRefcounts <==> !Wide16(x.h))
            && (r.Bad? && r.e == TableFull <==> Wide16(x.h) && TableIsFull(x, D(c)))
            && (r.Bad? && r.e == Io ==> exists n: nat :: FirstFree(x, D(c), n) && !Fits(x.h, n, c.cap))
  {
    hide SlotWord, Content, CountOf, WellFormed, ClustersOf, Mul, Div, Mod, EntryCluster, RootIs, ScanTable,
      FirstAbsent, FullBetween, FullFrom, ClaimEntry, AddBlock, RootEntries, EntriesPerBlock, LoadRoot;
    RootThere(x, c);
    if Wide16(x.h) {
      RootResident(x, c);
      RootLoaded(x, c);
      var c1, root := LoadRoot(c).s, LoadRoot(c).v;
      SameScan(x, c1, root);
      FirstEntry(x.h);
      ScanFinds(x, c1, root, 0, 0);
      FirstAbsentFinds(x, D(c), root, 0);
      var scan := ScanTable(c1, root, 0, 0).value;
      if scan.Some? {
        ClaimFirst(x, c1, scan.value);
      } else if FirstAbsent(root, 0).Some? {
        AddFirst(x, c1, root, FirstAbsent(root, 0).value);
      }
    }
  }

  lemma RootThere(x: Context, c: Core)
    requires CoreOK(x, c)
    ensures HasRoot(x.h)
  {
    hide WellFormed, MemoryOK, SlotWord, CountOf, Cl;
    HeaderCounted(x, D(c), c.imageLen);
    CountedHasRoot(x, D(c), c.imageLen, 0);
  }

  /** There is only one first free cluster. */
  lemma FirstFreeUnique(x: Context, d: Clusters, n: nat, m: nat)
    requires FirstFree(x, d, n) && FirstFree(x, d, m)
    ensures n == m && !TableIsFull(x, d)
  {
    hide SlotWord, CountOf, EntryCluster, RootEntries, Present;
  }

  lemma ClaimFirst(x: Context, c: Core, f: Free)
    requires CoreOK(x, c) && Wide16(x.h) && c.root.Some? && f.b < RootEntries(x) && f.e < EntriesPerBlock(x.h)
    requires f.blockOff == SlotWord(x, D(c), Block(f.b)) != 0
    requires CountOf(x, D(c), EntryCluster(x.h, f.b, f.e)) == 0
    requires FullBetween(x, D(c), 0, EntryCluster(x.h, f.b, f.e))
    ensures var r, n := ClaimEntry(c, f), EntryCluster(x.h, f.b, f.e);
            && FirstFree(x, D(c), n) && !TableIsFull(x, D(c))
            && (r.Good? ==> r.v == Mul(n, x.h.ClusterSize()) && Fits(x.h, n, c.cap))
            && (r.Bad? ==> r.e == Io && !Fits(x.h, n, c.cap))
  {
    hide SlotWord, Content, CountOf, WellFormed, ClustersOf, Mul, Div, Mod, EntryCluster, FullBetween, FullFrom, Encode;
    var n := EntryCluster(x.h, f.b, f.e);
    EntryInverse(x.h, f.b, f.e, n);
    FreePlace(x, D(c), f.b, f.e);
    HeaderCounted(x, D(c), c.imageLen);
    GrowQuiet(x, c, Mul(n, c.h.ClusterSize()));
    var g := DevGrowForCluster(c, Mul(n, c.h.ClusterSize()));
    if g.Good? { ClaimWrite(x, g.s, f, n); }
  }

  lemma AbsentFirst(x: Context, d: Clusters, b: nat)
    requires b < RootEntries(x) && SlotWord(x, d, Block(b)) == 0 && FullFrom(x, d, 0)
    requires forall f: nat | f < b :: SlotWord(x, d, Block(f)) != 0
    ensures FirstFree(x, d, EntryCluster(x.h, b, 1)) && !TableIsFull(x, d)
  {
    hide SlotWord, FullFrom, FullBetween, EntryCluster, RootEntries, Present;
  }

  lemma AddFirst(x: Context, c: Core, root: seq<byte>, b: nat)
    requires CoreOK(x, c) && Wide16(x.h) && c.root == Some(root) && b < RootEntries(x)
    requires SlotWord(x, D(c), Block(b)) == 0 && FullFrom(x, D(c), 0) && 8 * b + 8 <= |root|
    requires forall f: nat | f < b :: SlotWord(x, D(c), Block(f)) != 0
    ensures var r, n := AddBlock(c, root, b), EntryCluster(x.h, b, 1);
            && FirstFree(x, D(c), n) && !TableIsFull(x, D(c))
            && (r.Good? ==> r.v == Mul(n, x.h.ClusterSize()) && Fits(x.h, n, c.cap))
            && (r.Bad? ==> r.e == Io && !Fits(x.h, n, c.cap))
  {
    hide SlotWord, WellFormed, Mul, EntryCluster, FullFrom, FirstFree, TableIsFull, Encode, FreshBlock, RootEntries,
      DevWrite, MemoryOK, Quiet, Cl;
    var cs, first := c.h.ClusterSize(), EntryCluster(x.h, b, 0);
    NextEntry(x.h, b);
    MulNext(first, cs);
    AbsentFirst(x, D(c), b);
    var g := DevGrowForCluster(c, Mul(first + 1, cs));
    if g.Good? { AddWrites(x, c, root, b); }
  }

  /** Once the device has room, a block is added: it counts itself and the caller's cluster. */
  lemma AddWrites(x: Context, c: Core, root: seq<byte>, b: nat)
    requires CoreOK(x, c) && Wide16(x.h) && ValidSlot(x, Block(b)) && 8 * b + 8 <= |root|
    requires SlotWord(x, D(c), Block(b)) == 0
    requires DevGrowForCluster(c, Mul(EntryCluster(x.h, b, 0) + 1, x.h.ClusterSize())).Good?
    ensures var first, r := EntryCluster(x.h, b, 0), AddBlock(c, root, b);
            && r.Good? && r.s.h == x.h && r.v == Mul(first + 1, x.h.ClusterSize())
            && SlotWord(x, D(r.s), Block(b)) == Mul(first, x.h.ClusterSize())
            && OtherWordsSame(x, D(c), D(r.s), Block(b))
            && forall y: nat :: CountOf(x, D(r.s), y) == if y == first || y == first + 1 then 1 else CountOf(x, D(c), y)
  {
    hide SlotWord, WellFormed, Mul, EntryCluster, Encode, FreshBlock, RootEntries, DevWrite, DevGrowForCluster,
      SameContents, CrashesReadAs, Claims, OtherWordsSame, Cl, RootIs, FullBetween, CountOf, Put;
    var first := EntryCluster(x.h, b, 0);
    MulNext(first, x.h.ClusterSize());
    BlockNotFirst(x, D(c), c.imageLen, b);
    GrowQuiet(x, c, Mul(first + 1, x.h.ClusterSize()));
    var g := DevGrowForCluster(c, Mul(first + 1, x.h.ClusterSize())).s;
    AddBlockDevice(x, g, b, first, Mul(first, x.h.ClusterSize()));
  }

  // ---- what an allocation changes ----

  /** Table entry b named no block, and now names cluster y. */
  ghost predicate NewBlock(x: Context, d: Clusters, d': Clusters, b: nat, y: nat) {
    b < RootEntries(x) && SlotWord(x, d, Block(b)) == 0 && SlotWord(x, d', Block(b)) == Mul(y, x.h.ClusterSize())
  }

  ghost predicate BlocksKept(x: Context, d: Clusters, d': Clusters) {
    forall b: nat | b < RootEntries(x) && SlotWord(x, d, Block(b)) != 0 ::
      SlotWord(x, d', Block(b)) == SlotWord(x, d, Block(b))
  }

  /** Cluster n was named by nothing and counted zero; now it counts one. No other refcount moved, but for a new
      block's own, and every block there was is where it was. */
  ghost predicate OnlyCounts(x: Context, d: Clusters, d': Clusters, n: nat) {
    && BlocksKept(x, d, d')
    && n > 0 && Users(MetaOf(x, d), n) == {} && CountOf(x, d, n) == 0 && CountOf(x, d', n) == 1
    && forall y: nat | y != n && CountOf(x, d', y) != CountOf(x, d, y) ::
         y + 1 == n && CountOf(x, d, y) == 0 && CountOf(x, d', y) == 1 && exists b: nat :: NewBlock(x, d, d', b, y)
  }

  lemma AllocateFrame(x: Context, c: Core)
    requires CoreOK(x, c)
    ensures var r := AllocateCluster(c);
            if r.Bad? then D(r.s) == D(c)
            else exists n: nat :: r.v == Mul(n, x.h.ClusterSize()) && OnlyCounts(x, D(c), D(r.s), n)
  {
    hide SlotWord, Content, CountOf, WellFormed, ClustersOf, Mul, Div, Mod, EntryCluster, RootIs, ScanTable,
      FirstAbsent, FullBetween, FullFrom, ClaimEntry, AddBlock, RootEntries, EntriesPerBlock, LoadRoot, MetaOf, Cl;
    RootThere(x, c);
    if Wide16(x.h) {
      RootResident(x, c);
      RootLoaded(x, c);
      var c1, root := LoadRoot(c).s, LoadRoot(c).v;
      SameScan(x, c1, root);
      FirstEntry(x.h);
      ScanFinds(x, c1, root, 0, 0);
      FirstAbsentFinds(x, D(c), root, 0);
      var scan := ScanTable(c1, root, 0, 0).value;
      if scan.Some? {
        ClaimFrame(x, c1, scan.value);
      } else if FirstAbsent(root, 0).Some? {
        AddFrame(x, c1, root, FirstAbsent(root, 0).value);
      }
    }
  }

  lemma FreeUnused(x: Context, d: Clusters, len: nat, n: nat)
    requires WellFormed(x, d, len) && CountOf(x, d, n) == 0
    ensures Users(MetaOf(x, d), n) == {} && n > 0
  {
    hide CountOf, Legal;
    HeaderCounted(x, d, len);
    assert Count(MetaOf(x, d), n) == CountOf(x, d, n);
    Unused(MetaOf(x, d), n);
  }

  lemma ClaimFrame(x: Context, c: Core, f: Free)
    requires CoreOK(x, c) && Wide16(x.h) && c.root.Some? && f.b < RootEntries(x) && f.e < EntriesPerBlock(x.h)
    requires f.blockOff == SlotWord(x, D(c), Block(f.b)) != 0
    requires CountOf(x, D(c), EntryCluster(x.h, f.b, f.e)) == 0
    ensures var r, n := ClaimEntry(c, f), EntryCluster(x.h, f.b, f.e);
            if r.Bad? then r.s == c else r.v == Mul(n, x.h.ClusterSize()) && OnlyCounts(x, D(c), D(r.s), n)
  {
    hide SlotWord, Content, CountOf, WellFormed, Mul, EntryCluster, FullBetween, Encode, MetaOf, DevWrite, Cl, Claims,
      SameContents, CrashesReadAs, NewBlock;
    var n := EntryCluster(x.h, f.b, f.e);
    FreeUnused(x, D(c), c.imageLen, n);
    GrowQuiet(x, c, Mul(n, c.h.ClusterSize()));
    var g := DevGrowForCluster(c, Mul(n, c.h.ClusterSize()));
    if g.Good? { ClaimWrite(x, g.s, f, n); }
  }

  lemma BlockCountsOnly(x: Context, d: Clusters, len: nat, d': Clusters, b: nat, first: nat)
    requires WellFormed(x, d, len) && ValidSlot(x, Block(b)) && Wide16(x.h) && first == EntryCluster(x.h, b, 0)
    requires SlotWord(x, d, Block(b)) == 0 && SlotWord(x, d', Block(b)) == Mul(first, x.h.ClusterSize())
    requires OtherWordsSame(x, d, d', Block(b))
    requires forall y: nat :: CountOf(x, d', y) == if y == first || y == first + 1 then 1 else CountOf(x, d, y)
    ensures OnlyCounts(x, d, d', first + 1)
  {
    hide SlotWord, CountOf, WellFormed, Mul, EntryCluster, MetaOf, RootEntries;
    EmptyCounts(x, d, b, first);
    FreeUnused(x, d, len, first + 1);
    assert NewBlock(x, d, d', b, first);
  }

  lemma AddFrame(x: Context, c: Core, root: seq<byte>, b: nat)
    requires CoreOK(x, c) && Wide16(x.h) && c.root == Some(root) && b < RootEntries(x)
    requires SlotWord(x, D(c), Block(b)) == 0 && 8 * b + 8 <= |root|
    ensures var r, n := AddBlock(c, root, b), EntryCluster(x.h, b, 0) + 1;
            if r.Bad? then r.s == c
            else r.s.h == x.h && r.v == Mul(n, x.h.ClusterSize()) && OnlyCounts(x, D(c), D(r.s), n)
  {
    hide SlotWord, CountOf, WellFormed, Mul, EntryCluster, Cl, RootEntries, MemoryOK, AddBlock, OnlyCounts,
      DevGrowForCluster;
    var first := EntryCluster(x.h, b, 0);
    if DevGrowForCluster(c, Mul(first + 1, x.h.ClusterSize())).Bad? {
      AddRefused(c, root, b);
    } else {
      AddWrites(x, c, root, b);
      BlockCountsOnly(x, D(c), c.imageLen, D(AddBlock(c, root, b).s), b, first);
    }
  }

  lemma EmptyCounts(x: Context, d: Clusters, b: nat, first: nat)
    requires ValidSlot(x, Block(b)) && SlotWord(x, d, Block(b)) == 0 && first == EntryCluster(x.h, b, 0) && Wide16(x.h)
    ensures CountOf(x, d, first) == 0 && CountOf(x, d, first + 1) == 0
  {
    hide SlotWord, RootEntries, CountAt;
    EmptyRange(x, d, b, first, 0);
    NextEntry(x.h, b);
    EmptyRange(x, d, b, first + 1, 1);
  }

  // ---- two readers of one refcount ----

  /** The count the allocator's walk finds at entry e of block b is the one a lookup by host offset finds for the
      cluster of that entry. */
  lemma ReadersAgree(x: Context, c: Core, b: nat, e: nat)
    requires CoreOK(x, c) && Wide16(x.h) && e < EntriesPerBlock(x.h)
    ensures LoadRoot(c).Good?
    ensures var off := Mul(EntryCluster(x.h, b, e), x.h.ClusterSize());
            var root := LoadRoot(c).v;
            if 8 * b + 8 <= |root| && Word(root, b) != 0 then
              var block := DevRead(c, Word(root, b), x.h.ClusterSize());
              block.Ok? && ReadRefcount(c, off) == Ok(Decode(Slice(block.value, 2 * e, 2)))
            else ReadRefcount(c, off) == Ok(0)
  {
    hide SlotWord, Content, CountAt, WellFormed, ClustersOf, Mul, Div, Mod, EntryCluster, RootEntries, EntriesPerBlock,
      LoadRoot, ReadRefcount, Decode, Slice, FullBetween;
    RootThere(x, c);
    RootResident(x, c);
    RootLoaded(x, c);
    EntryInverse(x.h, b, e, EntryCluster(x.h, b, e));
    MulDiv(EntryCluster(x.h, b, e), x.h.ClusterSize());
    ReadRefcountOK(x, c, Mul(EntryCluster(x.h, b, e), x.h.ClusterSize()));
    if b < RootEntries(x) && SlotWord(x, D(c), Block(b)) != 0 { BlockCounts(x, c, b, e); }
  }

  /** On any device at all, the cluster that holds the header is never handed out. */
  lemma NeverTheHeader(c: Core)
    ensures AllocateCluster(c).Good? ==> AllocateCluster(c).v >= c.h.ClusterSize()
  {
    hide ScanTable, FirstAbsent, DevGrowForCluster, DevWrite, FreshBlock, Encode, Mul;
    var n, cs := EntriesPerBlock(c.h), c.h.ClusterSize();
    forall idx: nat | idx > 0 ensures Mul(idx, cs) >= cs {
      MulMono(1, idx, cs);
      MulOne(cs);
    }
  }

  /** On any device, a refcount table that is not all there is refused by name, before anything is read or changed. */
  lemma TableOutside(c: Core)
    requires Wide16(c.h) && HasRoot(c.h) && c.root == None
    requires c.h.refcountTableOffset + Mul(c.h.refcountTableClusters, c.h.ClusterSize()) > |c.dev|
    ensures AllocateCluster(c) == Bad(c, RefcountTableOutside)
  {
    hide ScanTable, FirstAbsent, EntriesPerBlock, Mul, RefcountBits;
  }
}
