/** Well-formed images, and the cluster writes that keep them so. */
module Images {
  import opened Bytes
  import opened Arith
  import opened Format
  import opened Accounting
  import opened Disk
  import opened DiskSteps

  /** No refcount is too low, fixed structures and refcount blocks are named once, COPIED tells the truth, and
      every entry of every L1 table and of every table it reaches is one the reader accepts within len bytes. */
  ghost predicate WellFormed(x: Context, d: Clusters, len: nat) {
    Whole(x.h.ClusterSize(), d) && Inv(MetaOf(x, d)) && Legal(x, d, len)
  }

  /** The header, the snapshot table and the snapshots' L1 tables. */
  predicate Settled(r: Slot) { r.Fixed? && r.owner != 1 && r.owner != 3 }

  /** What no write may touch, byte for byte. */
  ghost predicate SameStructures(x: Context, d: Clusters, d': Clusters) {
    forall r :: ValidSlot(x, r) && Settled(r) ==> At(d', r.cluster) == At(d, r.cluster)
  }

  /** Every guest view, through every L1 table, and the structures that say which those are. */
  ghost predicate SameContents(x: Context, d: Clusters, d': Clusters)
    requires Whole(x.h.ClusterSize(), d) && Whole(x.h.ClusterSize(), d')
  {
    && SameStructures(x, d, d')
    && forall r :: ValidSlot(x, r) && r.Data? ==> Content(x, d', r) == Content(x, d, r)
  }

  ghost predicate SameContentsBut(x: Context, d: Clusters, d': Clusters, but: Slot)
    requires Whole(x.h.ClusterSize(), d) && Whole(x.h.ClusterSize(), d')
  {
    && SameStructures(x, d, d')
    && forall r :: ValidSlot(x, r) && r.Data? && r != but ==> Content(x, d', r) == Content(x, d, r)
  }

  /** A cluster that at most one slot names, and no settled one, may change. */
  lemma StructuresKept(x: Context, d: Clusters, f: Slot, c: nat, v: seq<byte>)
    requires Sole(x, d, f, c) && !Settled(f)
    ensures SameStructures(x, d, d[c := v])
  {
    hide RefOfWord;
    forall r | ValidSlot(x, r) && Settled(r) ensures At(d[c := v], r.cluster) == At(d, r.cluster) {
      FixedTouches(x, d, r);
    }
  }

  lemma FixedTouches(x: Context, d: Clusters, r: Slot)
    requires ValidSlot(x, r) && r.Fixed?
    ensures Touches(RefOf(x, d, r), r.cluster)
  {}

  lemma WordKeepsStructures(x: Context, d: Clusters, r: Slot, w: u64)
    requires Whole(x.h.ClusterSize(), d) && ValidSlot(x, r) && Stored(x, d, r) && (r.Block? || r.k == 0)
    requires Sole(x, d, Keeper(x, d, r), Home(x, d, r).0)
    ensures SameStructures(x, d, WithWord(x, d, r, w))
  {
    hide Home, SlotWord, RefOfWord;
    var (c, j) := Home(x, d, r);
    StructuresKept(x, d, Keeper(x, d, r), c, At(WithWord(x, d, r, w), c));
    assert forall e: nat :: e != c ==> At(WithWord(x, d, r, w), e) == At(d, e);
  }

  lemma LegalGrows(x: Context, d: Clusters, len: nat, len': nat)
    requires Legal(x, d, len) && len <= len'
    ensures Legal(x, d, len')
  {
    forall r | ValidSlot(x, r) ensures LegalWord(x.h, r, SlotWord(x, d, r), len') {
      assert LegalWord(x.h, r, SlotWord(x, d, r), len);
    }
  }

  // ---- from equal words and counts to equal accounts ----

  lemma MetaSame(x: Context, d: Clusters, d': Clusters)
    requires SameWords(x, d, d') && SameCounts(x, d, d')
    ensures MetaOf(x, d') == MetaOf(x, d)
    ensures forall len :: Legal(x, d, len) ==> Legal(x, d', len)
  {
    hide SlotWord, CountOf, RefOfWord, LegalWord, ValidSlot, Coverage, Slots;
    var m, m' := MetaOf(x, d), MetaOf(x, d');
    assert forall r :: r in m.refs ==> m'.refs[r] == m.refs[r];
    assert m'.refs == m.refs;
    assert forall c: nat :: c in m.counts ==> c in m'.counts && m'.counts[c] == m.counts[c];
    assert m'.counts == m.counts;
  }

  lemma MetaRecount(x: Context, d: Clusters, d': Clusters, c: nat, n: nat)
    requires SameWords(x, d, d') && c < Coverage(x)
    requires forall y: nat :: CountOf(x, d', y) == if y == c then n else CountOf(x, d, y)
    ensures MetaOf(x, d') == Recount(MetaOf(x, d), c, n)
    ensures forall len :: Legal(x, d, len) ==> Legal(x, d', len)
  {
    hide SlotWord, CountOf, RefOfWord, LegalWord, ValidSlot, Coverage, Slots;
    var m, m' := MetaOf(x, d), MetaOf(x, d');
    assert forall r :: r in m.refs ==> m'.refs[r] == m.refs[r];
    assert m'.refs == m.refs;
    assert m'.counts.Keys == Recount(m, c, n).counts.Keys;
    assert m'.counts == Recount(m, c, n).counts;
  }

  ghost predicate OtherWordsSame(x: Context, d: Clusters, d': Clusters, r: Slot) {
    forall s :: ValidSlot(x, s) && s != r ==> SlotWord(x, d', s) == SlotWord(x, d, s)
  }

  lemma MetaRelink(x: Context, d: Clusters, d': Clusters, r: Slot, w: u64)
    requires ValidSlot(x, r) && OtherWordsSame(x, d, d', r) && SlotWord(x, d', r) == w && SameCounts(x, d, d')
    ensures MetaOf(x, d') == Relink(MetaOf(x, d), r, RefOfWord(x.h, r, w))
    ensures forall len :: Legal(x, d, len) && LegalWord(x.h, r, w, len) ==> Legal(x, d', len)
  {
    hide SlotWord, CountOf, RefOfWord, LegalWord, ValidSlot, Coverage, Slots;
    var m, m' := MetaOf(x, d), MetaOf(x, d');
    var n := Relink(m, r, RefOfWord(x.h, r, w));
    assert m'.refs.Keys == n.refs.Keys;
    assert forall s :: s in n.refs ==> m'.refs[s] == n.refs[s];
    assert m'.refs == n.refs;
    assert forall c: nat :: c in m.counts ==> c in m'.counts && m'.counts[c] == m.counts[c];
    assert m'.counts == m.counts;
  }

  // ---- who may write where ----

  lemma UnusedAlone(x: Context, d: Clusters, c: nat)
    requires Users(MetaOf(x, d), c) == {}
    ensures forall s :: ValidSlot(x, s) ==> !Touches(RefOf(x, d, s), c)
  {
    NoUsers(MetaOf(x, d), c);
    forall s | ValidSlot(x, s) ensures !Touches(RefOf(x, d, s), c) {
      assert s in MetaOf(x, d).refs;
    }
  }

  lemma OwnedAlone(x: Context, d: Clusters, f: Slot, c: nat)
    requires Exclusive(MetaOf(x, d)) && ValidSlot(x, f) && Owned(f) && Touches(RefOf(x, d, f), c)
    ensures Sole(x, d, f, c)
  {
    var m := MetaOf(x, d);
    forall s | ValidSlot(x, s) && s != f ensures !Touches(RefOf(x, d, s), c) {
      assert s in m.refs && f in m.refs && m.refs[f] == RefOf(x, d, f) && m.refs[s] == RefOf(x, d, s);
    }
  }

  lemma CountedOnceAlone(x: Context, d: Clusters, f: Slot, c: nat)
    requires Sound(MetaOf(x, d)) && ValidSlot(x, f) && Touches(RefOf(x, d, f), c) && CountOf(x, d, c) <= 1
    ensures Sole(x, d, f, c)
  {
    var m := MetaOf(x, d);
    assert f in m.refs;
    SoleUser(m, f, c);
    forall s | ValidSlot(x, s) && s != f ensures !Touches(RefOf(x, d, s), c) {
      assert s in m.refs && m.refs[s] == RefOf(x, d, s);
    }
  }

  lemma KeeperAlone(x: Context, d: Clusters, r: Slot)
    requires Inv(MetaOf(x, d)) && ValidSlot(x, r) && Stored(x, d, r) && (r.Block? || r.Table?)
    ensures Sole(x, d, Keeper(x, d, r), Home(x, d, r).0)
  {
    KeeperTouches(x, d, r);
    OwnedAlone(x, d, Keeper(x, d, r), Home(x, d, r).0);
  }

  // ---- the writes ----

  /** Any bytes may go into a cluster nothing names. */
  lemma FillUnused(x: Context, d: Clusters, len: nat, c: nat, v: seq<byte>)
    requires WellFormed(x, d, len) && |v| == x.h.ClusterSize() && Users(MetaOf(x, d), c) == {}
    ensures WellFormed(x, d[c := v], len) && MetaOf(x, d[c := v]) == MetaOf(x, d)
    ensures SameWords(x, d, d[c := v]) && SameContents(x, d, d[c := v])
  {
    UnusedAlone(x, d, c);
    DataWrite(x, d, c, v);
    MetaSame(x, d, d[c := v]);
    StructuresKept(x, d, Block(0), c, v);
  }

  /** Any bytes may go into a plain cluster only one path reaches: only that path's view changes. */
  lemma FillPrivate(x: Context, d: Clusters, len: nat, r: Slot, c: nat, v: seq<byte>)
    requires WellFormed(x, d, len) && |v| == x.h.ClusterSize()
    requires ValidSlot(x, r) && r.Data? && Sole(x, d, r, c)
    ensures WellFormed(x, d[c := v], len) && MetaOf(x, d[c := v]) == MetaOf(x, d)
    ensures SameWords(x, d, d[c := v]) && SameContentsBut(x, d, d[c := v], r)
  {
    DataWrite(x, d, c, v);
    MetaSame(x, d, d[c := v]);
    StructuresKept(x, d, r, c, v);
  }

  lemma BlockAlone(x: Context, d: Clusters, b: nat)
    requires Inv(MetaOf(x, d)) && ValidSlot(x, Block(b)) && SlotWord(x, d, Block(b)) != 0
    ensures Sole(x, d, Block(b), BlockCluster(x, d, b))
  {
    OwnedAlone(x, d, Block(b), BlockCluster(x, d, b));
  }

  lemma EntryCovered(x: Context, b: nat, e: nat)
    requires b < RootEntries(x) && e < EntriesPerBlock(x.h)
    ensures EntryCluster(x.h, b, e) < Coverage(x)
  {
    MulBound(b, RootEntries(x), EntriesPerBlock(x.h), e);
  }

  /** A refcount entry is overwritten: the accounts change there and nowhere else. */
  lemma SetCount(x: Context, d: Clusters, len: nat, b: nat, e: nat, n: nat)
    requires WellFormed(x, d, len) && Wide16(x.h) && ValidSlot(x, Block(b)) && e < EntriesPerBlock(x.h)
    requires SlotWord(x, d, Block(b)) != 0 && n < 0x1_0000
    ensures Whole(x.h.ClusterSize(), WithCount(x, d, b, e, n))
    ensures MetaOf(x, WithCount(x, d, b, e, n)) == Recount(MetaOf(x, d), EntryCluster(x.h, b, e), n)
    ensures Legal(x, WithCount(x, d, b, e, n), len)
    ensures SameWords(x, d, WithCount(x, d, b, e, n)) && SameContents(x, d, WithCount(x, d, b, e, n))
  {
    BlockAlone(x, d, b);
    StructuresKept(x, d, Block(b), BlockCluster(x, d, b), At(WithCount(x, d, b, e, n), BlockCluster(x, d, b)));
    CountWrite(x, d, b, e, n);
    EntryCovered(x, b, e);
    MetaRecount(x, d, WithCount(x, d, b, e, n), EntryCluster(x.h, b, e), n);
  }

  /** w is the entry the reader writes for host cluster n. */
  ghost predicate Names(h: Header, w: u64, n: nat) {
    && w == EntryFor(Mul(n, h.ClusterSize())) && n > 0
    && HostOffset(w) == Mul(n, h.ClusterSize()) > 0 && Copied(w) && !Compressed(w) && !ZeroFlag(w)
    && !L1ReservedBits(w) && (forall v :: !L2ReservedBits(v, w))
    && Div(HostOffset(w), h.ClusterSize()) == n && Mod(HostOffset(w), h.ClusterSize()) == 0
  }

  lemma EntryForCluster(h: Header, n: nat)
    requires n > 0 && Mul(n, h.ClusterSize()) < BIT_56
    ensures Names(h, EntryFor(Mul(n, h.ClusterSize())), n)
  {
    var cs := h.ClusterSize();
    MulDiv(n, cs);
    MulMono(1, n, cs);
    MulOne(cs);
    MulMultiple(n, cs, 512);
    EntryForFacts(Mul(n, cs));
  }

  ghost predicate Claimed(x: Context, d: Clusters, n: nat) {
    Users(MetaOf(x, d), n) == {} && CountOf(x, d, n) == 1
  }

  ghost predicate Fits(h: Header, n: nat, len: nat) {
    Mul(n, h.ClusterSize()) + h.ClusterSize() <= len
  }

  /** Cluster n holds the words readers find through entry i of the active L1 table today. */
  ghost predicate HoldsTable(x: Context, d: Clusters, i: nat, n: nat)
    requires ValidSlot(x, Table(0, i))
  {
    forall j: nat | j < x.h.L2Entries() :: Word(At(d, n), j) == SlotWord(x, d, Data(0, i, j))
  }

  /** An L1 entry of the active table is pointed at a claimed cluster that already holds those words. */
  lemma LinkTable(x: Context, d: Clusters, len: nat, i: nat, n: nat, w: u64, d': Clusters)
    requires WellFormed(x, d, len) && ValidSlot(x, Table(0, i))
    requires Claimed(x, d, n) && Names(x.h, w, n) && Fits(x.h, n, len) && HoldsTable(x, d, i, n)
    requires d' == WithWord(x, d, Table(0, i), w)
    ensures WellFormed(x, d', len) && MetaOf(x, d') == Relink(MetaOf(x, d), Table(0, i), One(n, true))
    ensures OtherWordsSame(x, d, d', Table(0, i)) && SlotWord(x, d', Table(0, i)) == w && SameContents(x, d, d')
  {
    hide CountOf, Content, WithWord, Home, Word, SlotWord, HoldsTable, Names, Fits, LegalWord, RefOfWord, Inv, Legal;
    var r := Table(0, i);
    NamedTable(x.h, i, n, w, len);
    KeeperAlone(x, d, r);
    WordWrite(x, d, r, w);
    WordKeepsStructures(x, d, r, w);
    LinkTableWords(x, d, i, n, w, d');
    MetaRelink(x, d, d', r, w);
    LinkInv(MetaOf(x, d), r, n, true);
  }

  lemma NamedTable(h: Header, i: nat, n: nat, w: u64, len: nat)
    requires Names(h, w, n) && Fits(h, n, len)
    ensures LegalWord(h, Table(0, i), w, len) && RefOfWord(h, Table(0, i), w) == One(n, true)
  {}

  lemma LinkTableWords(x: Context, d: Clusters, i: nat, n: nat, w: u64, d': Clusters)
    requires Whole(x.h.ClusterSize(), d) && Inv(MetaOf(x, d)) && ValidSlot(x, Table(0, i))
    requires Claimed(x, d, n) && Names(x.h, w, n) && HoldsTable(x, d, i, n)
    requires d' == WithWord(x, d, Table(0, i), w)
    ensures OtherWordsSame(x, d, d', Table(0, i))
  {
    hide CountOf, WithWord, Home, SlotWord, Word, Names, Claimed;
    var r := Table(0, i);
    KeeperAlone(x, d, r);
    forall s | ValidSlot(x, s) && s != r ensures SlotWord(x, d', s) == SlotWord(x, d, s) {
      if Under(r, s) {
        TableFilled(x, d, i, n, w, s.j);
      } else {
        WordWriteOther(x, d, r, w, s);
      }
    }
  }

  lemma TableFilled(x: Context, d: Clusters, i: nat, n: nat, w: u64, j: nat)
    requires Whole(x.h.ClusterSize(), d) && Inv(MetaOf(x, d)) && ValidSlot(x, Table(0, i)) && j < x.h.L2Entries()
    requires Claimed(x, d, n) && Names(x.h, w, n)
    ensures SlotWord(x, WithWord(x, d, Table(0, i), w), Data(0, i, j)) == Word(At(d, n), j)
  {
    var r := Table(0, i);
    KeeperAlone(x, d, r);
    KeeperTouches(x, d, r);
    UnusedAlone(x, d, n);
    WordWriteSelf(x, d, r, w);
    WithWordAt(x, d, r, w, n);
  }

  /** An L2 entry in a table nothing else reaches is pointed at a claimed cluster. */
  lemma LinkData(x: Context, d: Clusters, len: nat, r: Slot, n: nat, w: u64, d': Clusters)
    requires WellFormed(x, d, len) && ValidSlot(x, r) && r.Data? && Stored(x, d, r)
    requires r.k == 0 && Claimed(x, d, n) && Names(x.h, w, n) && Fits(x.h, n, len)
    requires Sole(x, d, Table(r.k, r.i), Home(x, d, r).0)
    requires d' == WithWord(x, d, r, w)
    ensures WellFormed(x, d', len) && MetaOf(x, d') == Relink(MetaOf(x, d), r, One(n, true))
    ensures OtherWordsSame(x, d, d', r) && SlotWord(x, d', r) == w && SameContentsBut(x, d, d', r)
    ensures Content(x, d', r) == Known(At(d, n))
  {
    hide SlotWord, CountOf, Home, WithWord;
    KeeperTouches(x, d, r);
    UnusedAlone(x, d, n);
    WordWrite(x, d, r, w);
    WordKeepsStructures(x, d, r, w);
    MetaRelink(x, d, d', r, w);
    LinkInv(MetaOf(x, d), r, n, true);
    assert LegalWord(x.h, r, w, len);
    WithWordAt(x, d, r, w, n);
  }

  /** A refcount table entry that was empty is pointed at a fresh block for its range. */
  lemma LinkBlock(x: Context, d: Clusters, len: nat, b: nat, n: nat, w: u64, d': Clusters)
    requires WellFormed(x, d, len) && Wide16(x.h) && ValidSlot(x, Block(b)) && SlotWord(x, d, Block(b)) == 0 && b > 0
    requires n == EntryCluster(x.h, b, 0) && At(d, n) == FreshBlock(x.h.ClusterSize())
    requires w == Mul(n, x.h.ClusterSize()) && Fits(x.h, n, len)
    requires d' == WithWord(x, d, Block(b), w)
    ensures WellFormed(x, d', len) && MetaOf(x, d') == WithBlock(MetaOf(x, d), b, n, EntryCluster(x.h, b, 1))
    ensures OtherWordsSame(x, d, d', Block(b)) && SameContents(x, d, d')
  {
    hide SlotWord, CountOf, Content, Home, WithWord, FreshBlock;
    var claimed := EntryCluster(x.h, b, 1);
    MulMono(1, n, x.h.ClusterSize());
    MulOne(x.h.ClusterSize());
    MulMono(1, b, EntriesPerBlock(x.h));
    MulOne(EntriesPerBlock(x.h));
    MulDiv(n, x.h.ClusterSize());
    KeeperAlone(x, d, Block(b));
    EmptyRange(x, d, b, n, 0);
    EmptyRange(x, d, b, claimed, 1);
    BlockInv(MetaOf(x, d), b, n, claimed);
    WordWrite(x, d, Block(b), w);
    WordKeepsStructures(x, d, Block(b), w);
    assert LegalWord(x.h, Block(b), w, len);
    BlockMeta(x, d, b, n, w, d');
  }

  lemma EmptyRange(x: Context, d: Clusters, b: nat, c: nat, e: nat)
    requires ValidSlot(x, Block(b)) && SlotWord(x, d, Block(b)) == 0
    requires e < EntriesPerBlock(x.h) && c == EntryCluster(x.h, b, e)
    ensures CountOf(x, d, c) == 0
  {
    EntryInverse(x.h, b, e, c);
  }

  lemma BlockMeta(x: Context, d: Clusters, b: nat, n: nat, w: u64, d': Clusters)
    requires Whole(x.h.ClusterSize(), d) && Inv(MetaOf(x, d))
    requires Wide16(x.h) && ValidSlot(x, Block(b)) && SlotWord(x, d, Block(b)) == 0
    requires n == EntryCluster(x.h, b, 0) && At(d, n) == FreshBlock(x.h.ClusterSize()) && CountOf(x, d, n) == 0
    requires w != 0 && Div(w, x.h.ClusterSize()) == n
    requires d' == WithWord(x, d, Block(b), w)
    ensures MetaOf(x, d') == WithBlock(MetaOf(x, d), b, n, EntryCluster(x.h, b, 1))
  {
    hide SlotWord, CountOf, Word, CountAt, Content;
    KeeperAlone(x, d, Block(b));
    KeeperTouches(x, d, Block(b));
    Unused(MetaOf(x, d), n);
    WordWrite(x, d, Block(b), w);
    assert RefOfWord(x.h, Block(b), w) == One(n, false);
    forall y: nat
      ensures CountOf(x, d', y) == if y == n || y == EntryCluster(x.h, b, 1) then 1 else CountOf(x, d, y)
    {
      RootWrite(x, d, b, w, y);
    }
    EntryCovered(x, b, 0);
    EntryCovered(x, b, 1);
    BlockAccounts(x, d, d', b, n, EntryCluster(x.h, b, 1), w);
  }

  lemma BlockAccounts(x: Context, d: Clusters, d': Clusters, b: nat, n: nat, claimed: nat, w: u64)
    requires ValidSlot(x, Block(b)) && OtherWordsSame(x, d, d', Block(b)) && SlotWord(x, d', Block(b)) == w
    requires RefOfWord(x.h, Block(b), w) == One(n, false) && n < Coverage(x) && claimed < Coverage(x)
    requires forall y: nat :: CountOf(x, d', y) == if y == n || y == claimed then 1 else CountOf(x, d, y)
    ensures MetaOf(x, d') == WithBlock(MetaOf(x, d), b, n, claimed)
  {
    hide SlotWord, CountOf, RefOfWord, ValidSlot, Coverage, Slots;
    var m, m' := MetaOf(x, d), MetaOf(x, d');
    var refs := m.refs[Block(b) := One(n, false)];
    assert m'.refs.Keys == refs.Keys;
    assert forall s :: s in refs ==> m'.refs[s] == refs[s];
    assert m'.refs == refs;
    var counts := m.counts[n := 1][claimed := 1];
    assert m'.counts.Keys == counts.Keys;
    assert m'.counts == counts;
  }
}
