/** The one write of a chunk that guests can see, and the steps around it. */
module Publishing {
  import opened Bytes
  import opened Arith
  import opened Format
  import opened Accounting
  import opened Disk
  import opened DiskSteps
  import opened Images
  import opened Bridge
  import opened Engine
  import opened Safety
  import opened Allocation
  import opened Scanning
  import opened Allocator
  import opened Refcounts
  import opened Tables

  /** Device work in which every crash leaves a well-formed image that reads, through every L1 table, either as it
      did before all of it or as it does after all of it. */
  ghost predicate Switches(x: Context, c: Core, c': Core)
    requires c.h == x.h
  {
    && Extends(c, c') && DeviceOK(x, c')
    && forall n, m | |c.log| <= n < |c'.log| && CrashImage(c'.log[n], m) :: ReadsAs(x, D(c), m) || ReadsAs(x, D(c'), m)
  }

  lemma SwitchOK(x: Context, c: Core, c': Core)
    requires c.h == x.h && Switches(x, c, c')
    ensures DeviceOK(x, c')
  {}

  lemma QuietThenSwitch(x: Context, a: Core, b: Core, c: Core)
    requires a.h == x.h && Quiet(x, a, b) && Switches(x, b, c)
    ensures Switches(x, a, c)
  {
    hide WellFormed, Content;
    forall n, m | |a.log| <= n < |c.log| && CrashImage(c.log[n], m) ensures ReadsAs(x, D(a), m) || ReadsAs(x, D(c), m) {
      if n < |b.log| {
        assert c.log[n] == b.log[n];
      } else {
        assert ReadsAs(x, D(b), m) || ReadsAs(x, D(c), m);
      }
    }
  }

  lemma SwitchThenQuiet(x: Context, a: Core, b: Core, c: Core)
    requires a.h == x.h && Switches(x, a, b) && Quiet(x, b, c)
    ensures Switches(x, a, c)
  {
    hide WellFormed, Content;
    forall n, m | |a.log| <= n < |c.log| && CrashImage(c.log[n], m) ensures ReadsAs(x, D(a), m) || ReadsAs(x, D(c), m) {
      if n < |b.log| {
        assert c.log[n] == b.log[n];
        assert ReadsAs(x, D(a), m) || ReadsAs(x, D(b), m);
      } else {
        assert ReadsAs(x, D(b), m);
      }
    }
  }

  lemma DataHome(x: Context, d: Clusters, len: nat, r: Slot, off: nat)
    requires Legal(x, d, len) && ValidSlot(x, r) && r.Data? && r.k == 0
    requires off == HostOffset(SlotWord(x, d, Table(0, r.i))) != 0
    ensures Stored(x, d, r) && off + 8 * r.j == AddressOf(x, d, r)
    ensures Keeper(x, d, r) == Table(0, r.i) && Home(x, d, r).0 == Div(off, x.h.ClusterSize())
  {
    hide HostOffset, SlotWord, Word, Mul, Div, Mod, Legal;
    TableThere(x, d, len, r.i);
  }

  /** The L2 entry write: r is pointed at the claimed cluster n, in a table nothing else reaches. */
  lemma PublishEntry(x: Context, c: Core, r: Slot, n: nat, w: u64, off: nat)
    requires CoreOK(x, c) && ValidSlot(x, r) && r.Data? && r.k == 0
    requires off == HostOffset(SlotWord(x, D(c), Table(0, r.i))) != 0
    requires Sole(x, D(c), Table(0, r.i), Div(off, x.h.ClusterSize()))
    requires Claimed(x, D(c), n) && Names(x.h, w, n) && Fits(x.h, n, c.imageLen)
    ensures var o := DevWrite(c, off + 8 * r.j, Encode(w, 8));
            && o.Good? && Switches(x, c, o.s) && CoreOK(x, o.s) && o.s.l1 == c.l1
            && SameContentsBut(x, D(c), D(o.s), r) && Content(x, D(o.s), r) == Known(At(D(c), n))
            && SlotWord(x, D(o.s), r) == w && Linked(x, D(c), D(o.s), r, n)
  {
    hide SlotWord, CountOf, Content, Legal, Mul, Mod, Claimed, FullBetween, RootIs, Slack, MetaOf, HostOffset, Inv,
      ClustersOf, WithWord, Names, Linked, Encode, SameContentsBut, OtherWordsSame, Switches, DevWrite, Word, Present,
      Home, Keeper, Stored, AddressOf, Sole, Fits, Div, RefOf, RefOfWord, Slots, Users, Cl, MemoryOK;
    DataHome(x, D(c), c.imageLen, r, off);
    var d' := WithWord(x, D(c), r, w);
    LinkData(x, D(c), c.imageLen, r, n, w, d');
    LinkedD(x, D(c), c.imageLen, r, n, w, d');
    EntryWrite(x, c, r, w, off + 8 * r.j);
    var c' := DevWrite(c, off + 8 * r.j, Encode(w, 8)).s;
    SwitchOK(x, c, c');
    MemoryAfterData(x, c, c', r, n);
  }

  lemma EntryWrite(x: Context, c: Core, r: Slot, w: u64, off: nat)
    requires DeviceOK(x, c) && ValidSlot(x, r) && r.Data? && Stored(x, D(c), r) && off == AddressOf(x, D(c), r)
    requires WellFormed(x, WithWord(x, D(c), r, w), c.imageLen)
    ensures var o := DevWrite(c, off, Encode(w, 8));
            && o.Good? && D(o.s) == WithWord(x, D(c), r, w) && Switches(x, c, o.s)
            && o.s == c.(dev := o.s.dev, imageLen := o.s.imageLen, log := o.s.log)
  {
    hide SlotWord, Content, Legal, Inv, ClustersOf, Mul, Encode, Home, Word, MetaOf, Stored, Put, Keeper, ValidSlot,
      SameContents, RefOf, Slots, L2TableOffset, Classify, HostOffset, CrashImage, ReadsAs;
    var (k, j) := Home(x, D(c), r);
    HomeFits(x, D(c), c.imageLen, r);
    SectorInCluster(x.h, k, 8 * j, 8);
    PutCluster(x.h.ClusterSize(), c.dev, k, 8 * j, Encode(w, 8));
    hide WithWord;
    var d' := WithWord(x, D(c), r, w);
    var c' := DevWrite(c, off, Encode(w, 8)).s;
    LegalGrows(x, d', c.imageLen, c'.imageLen);
    forall n, m | |c.log| <= n < |c'.log| && CrashImage(c'.log[n], m)
      ensures ReadsAs(x, D(c), m) || ReadsAs(x, D(c'), m)
    {
      BeforeOrAfter(x, c, c', off, Encode(w, 8), m);
    }
  }

  lemma BeforeOrAfter(x: Context, c: Core, c': Core, off: nat, buf: seq<byte>, m: seq<byte>)
    requires DeviceOK(x, c) && OneSector(off, |buf|)
    requires off + |buf| <= |c.dev| && c'.h == c.h && c'.dev == Put(c.dev, off, buf)
    requires WellFormed(x, D(c'), c.imageLen) && CrashImage(Patch(c.dev, off, buf), m)
    ensures ReadsAs(x, D(c), m) || ReadsAs(x, D(c'), m)
  {
    hide Content, Legal, Inv, MetaOf, ClustersOf;
    SameImage(x, c, |m|);
    LegalGrows(x, D(c'), c.imageLen, |m|);
  }

  lemma MemoryAfterData(x: Context, c: Core, c': Core, r: Slot, n: nat)
    requires MemoryOK(x, c) && c'.l1 == c.l1 && c'.root == c.root && c'.cursor == c.cursor
    requires ValidSlot(x, r) && r.Data? && Linked(x, D(c), D(c'), r, n)
    ensures MemoryOK(x, c')
  {
    hide SlotWord, CountOf, Content, Word, KeepsOtherClaims, Slack, RefOf;
    forall z: nat | z < c'.cursor && Present(x, D(c'), z) ensures CountOf(x, D(c'), z) > 0 {
      assert Present(x, D(c), z);
    }
  }

  // ---- a chunk that gets a cluster of its own ----

  /** The host cluster whose share the plan drops. */
  predicate Drops(h: Header, release: Option<nat>, y: nat) {
    release.Some? && y == Div(release.value, h.ClusterSize())
  }

  /** How much the slack of cluster y grows when slot r stops naming what it names and one share is dropped. */
  ghost function Leak(x: Context, d: Clusters, r: Slot, release: Option<nat>, y: nat): int
    requires ValidSlot(x, r)
  {
    Bit(Touches(RefOf(x, d, r), y)) - Bit(Drops(x.h, release, y))
  }

  /** The state before the L2 entry moves: cluster n is claimed and filled, r's table is private at off. */
  ghost predicate ReadyToPublish(x: Context, c0: Core, c: Core, r: Slot, n: nat, full: seq<byte>, off: nat)
    requires c0.h == x.h && ValidSlot(x, r) && r.Data? && r.k == 0
  {
    && Quiet(x, c0, c) && CoreOK(x, c)
    && Claimed(x, D(c), n) && At(D(c), n) == full && Fits(x.h, n, c.imageLen)
    && off == HostOffset(SlotWord(x, D(c), Table(0, r.i))) != 0
    && Sole(x, D(c), Table(0, r.i), Div(off, x.h.ClusterSize()))
    && KeepsData(x, D(c0), D(c))
    && forall y: nat :: Slack(MetaOf(x, D(c)), y) == Slack(MetaOf(x, D(c0)), y) + Bit(y == n)
  }

  lemma BecomesReady(x: Context, c0: Core, c1: Core, c2: Core, r: Slot, n: nat, full: seq<byte>, off: nat)
    requires c0.h == x.h && c1.h == x.h && ValidSlot(x, r) && r.Data? && r.k == 0
    requires PrivateTable(x, D(c1), D(c2), r.i, off)
    requires CoreOK(x, c2) && Quiet(x, c1, c2) && Prepared(x, c0, c1, n, full)
    ensures ReadyToPublish(x, c0, c2, r, n, full, off)
  {
    hide SlotWord, CountOf, Content, MetaOf, Slack, Claimed, WellFormed, ClustersOf, HostOffset, Div, Mul, Sole,
      RefOfWord;
    QuietTrans(x, c0, c1, c2);
  }

  /** A word the reader writes: plain and marked as the only reference. */
  predicate NewEntry(w: nat) { Copied(w) && !Compressed(w) && !ZeroFlag(w) }

  /** No L2 word but r's changed, in any table. */
  ghost predicate KeepsOtherData(x: Context, d: Clusters, d': Clusters, r: Slot) {
    forall s | ValidSlot(x, s) && s.Data? && s != r :: SlotWord(x, d', s) == SlotWord(x, d, s)
  }

  /** What a guest sees of a published chunk, and what it costs. */
  ghost predicate Published(x: Context, c: Core, c': Core, r: Slot, full: seq<byte>, release: Option<nat>)
    requires c.h == x.h && ValidSlot(x, r) && r.Data?
  {
    && Switches(x, c, c') && CoreOK(x, c')
    && SameContentsBut(x, D(c), D(c'), r) && Content(x, D(c'), r) == Known(full)
    && NewEntry(SlotWord(x, D(c'), r)) && KeepsOtherData(x, D(c), D(c'), r)
    && forall y: nat :: Slack(MetaOf(x, D(c')), y) == Slack(MetaOf(x, D(c)), y) + Leak(x, D(c), r, release, y)
  }

  /** Work that made at most one cluster leak, by one share. */
  ghost predicate OnlyLeaks(x: Context, c: Core, c': Core)
    requires c.h == x.h
  {
    && Quiet(x, c, c') && CoreOK(x, c') && c'.l1 == c.l1 && KeepsTableWords(x, D(c), D(c'))
    && exists lost :: LeaksJust(x, D(c), D(c'), lost)
  }

  /** Only the cluster lost, if any, has more counts than before beyond its references: one. */
  ghost predicate LeaksJust(x: Context, d: Clusters, d': Clusters, lost: Option<nat>) {
    forall y: nat :: Slack(MetaOf(x, d'), y) == Slack(MetaOf(x, d), y) + Bit(lost == Some(y))
  }

  lemma LinkAndKeep(x: Context, c0: Core, c: Core, r: Slot, n: nat, full: seq<byte>, w: u64, off: nat)
    requires c0.h == x.h && ValidSlot(x, r) && r.Data? && r.k == 0
    requires ReadyToPublish(x, c0, c, r, n, full, off) && Names(x.h, w, n)
    ensures var o := DevWrite(c, off + 8 * r.j, Encode(w, 8));
            o.Good? && Published(x, c0, o.s, r, full, None)
  {
    hide SlotWord, CountOf, Content, MetaOf, Claimed, WellFormed, ClustersOf, HostOffset, Div, Mul, Sole, RefOfWord,
      DevWrite, Fits, Encode, FullBetween, RootIs, Copied, Slack, KeepsOtherClaims;
    PublishEntry(x, c, r, n, w, off);
    var c1 := DevWrite(c, off + 8 * r.j, Encode(w, 8)).s;
    QuietThenSwitch(x, c0, c, c1);
    assert NewEntry(w);
    assert RefOf(x, D(c), r) == RefOf(x, D(c0), r);
  }

  /** Dropping the share of a cluster the chunk no longer names. */
  lemma DropShare(x: Context, c0: Core, c: Core, r: Slot, full: seq<byte>, off: nat)
    requires c0.h == x.h && ValidSlot(x, r) && r.Data? && Wide16(x.h) && DeviceOK(x, c0)
    requires Published(x, c0, c, r, full, None)
    requires Touches(RefOf(x, D(c0), r), Div(off, x.h.ClusterSize()))
    ensures var o := DecrementRefcount(c, off);
            o.Good? && Published(x, c0, o.s, r, full, Some(off))
  {
    hide SlotWord, CountOf, Content, MetaOf, Claimed, WellFormed, ClustersOf, HostOffset, Div, Mul, RefOfWord, DevWrite,
      FullBetween, RootIs, NewEntry, Slack, DecrementRefcount, KeepsOtherClaims, SameWords;
    var y := Div(off, x.h.ClusterSize());
    SlackNotNegative(x, D(c0), c0.imageLen, y);
    DecrementOK(x, c, off);
    var c1 := DecrementRefcount(c, off).s;
    SwitchThenQuiet(x, c0, c, c1);
    WordKept(x, D(c), D(c1), r);
    forall s | ValidSlot(x, s) && s.Data? && s != r ensures SlotWord(x, D(c1), s) == SlotWord(x, D(c0), s) {
      WordKept(x, D(c), D(c1), s);
    }
    assert SameContents(x, D(c), D(c1));
    assert Content(x, D(c1), r) == Content(x, D(c), r);
  }

  /** Filling, publishing and releasing, after the allocation: every guest view switches at one write or none. */
  lemma PublishOK(x: Context, c: Core, cursor: nat, r: Slot, full: seq<byte>, release: Option<nat>)
    requires ValidSlot(x, r) && r.Data? && r.k == 0
    requires CoreOK(x, c) && AllocateCluster(c).Good? && |full| == x.h.ClusterSize()
    requires SplitVirtual(x.h, cursor).l1Index == r.i && SplitVirtual(x.h, cursor).l2Index == r.j
    requires release.Some? ==> Touches(RefOf(x, D(c), r), Div(release.value, x.h.ClusterSize()))
    ensures var a := AllocateCluster(c);
            var p := Publish(a.s, cursor, a.v, full, release);
            && (p.Good? ==> Published(x, c, p.s, r, full, release))
            && (p.Bad? ==> OnlyLeaks(x, c, p.s) && AllocateCluster(DevWrite(a.s, a.v, full).s) == Bad(p.s, p.e))
  {
    hide SlotWord, CountOf, Content, MetaOf, Claimed, WellFormed, ClustersOf, HostOffset, Div, Mul, RefOfWord, DevWrite,
      FullBetween, RootIs, Copied, Slack, DecrementRefcount, AllocateCluster, OwnL2Table, Prepared, Published, EntryFor,
      ReadyToPublish, Quiet, Encode, SplitVirtual;
    var a := AllocateCluster(c);
    var n := Div(a.v, x.h.ClusterSize());
    AllocateOK(x, c);
    PrepareOK(x, c, full);
    var c1 := DevWrite(a.s, a.v, full).s;
    PreparedOK(x, c, c1, n, full);
    var w := EntryFor(a.v);
    EntryForCluster(x.h, n);
    OwnL2TableOK(x, c1, r.i);
    var t := OwnL2Table(c1, r.i);
    if t.Bad? {
      LeakOne(x, c, c1, t.s, n, full);
    } else {
      BecomesReady(x, c, c1, t.s, r, n, full, t.v);
      LinkAndKeep(x, c, t.s, r, n, full, w, t.v);
      var c3 := DevWrite(t.s, t.v + 8 * r.j, Encode(w, 8)).s;
      if release.Some? { DropShare(x, c, c3, r, full, release.value); }
    }
  }

  lemma LeakOne(x: Context, c: Core, c1: Core, c2: Core, n: nat, buf: seq<byte>)
    requires c.h == x.h && Prepared(x, c, c1, n, buf) && c2 == c1.(root := c2.root) && Quiet(x, c1, c2) && CoreOK(x, c2)
    ensures OnlyLeaks(x, c, c2)
  {
    hide SlotWord, CountOf, Content, MetaOf, Slack, Claimed, WellFormed, ClustersOf;
    QuietTrans(x, c, c1, c2);
    assert LeaksJust(x, D(c), D(c2), Some(n));
  }
}
