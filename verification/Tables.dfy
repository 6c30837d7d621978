/** L1 and L2 tables: allocated, copied when shared, and written only when private. */
module Tables {
  import opened Bytes
  import opened Arith
  import opened Format
  import opened Accounting
  import opened Disk
  import opened DiskSteps
  import opened Images
  import opened Bridge
  import opened Engine
  import opened Safety
  import opened Allocation
  import opened Scanning
  import opened Allocator
  import opened Refcounts

  ghost predicate KeepsData(x: Context, d: Clusters, d': Clusters) {
    forall r | ValidSlot(x, r) && r.Data? :: SlotWord(x, d', r) == SlotWord(x, d, r)
  }

  ghost predicate SameSlack(x: Context, d: Clusters, d': Clusters) {
    forall y: nat :: Slack(MetaOf(x, d'), y) == Slack(MetaOf(x, d), y)
  }

  /** Entry i of the active L1 table now names cluster n instead of whatever it named. */
  ghost predicate Linked(x: Context, d: Clusters, d': Clusters, r: Slot, n: nat)
    requires ValidSlot(x, r)
  {
    && OtherWordsSame(x, d, d', r) && KeepsOtherClaims(x, d, d', n)
    && RefOf(x, d', r) == One(n, true)
    && (forall y: nat :: CountOf(x, d', y) == CountOf(x, d, y))
    && (forall y: nat ::
          Slack(MetaOf(x, d'), y) == Slack(MetaOf(x, d), y) + Bit(Touches(RefOf(x, d, r), y)) - Bit(y == n))
  }

  lemma LinkedD(x: Context, d: Clusters, len: nat, r: Slot, n: nat, w: u64, d': Clusters)
    requires WellFormed(x, d, len) && ValidSlot(x, r) && !Owned(r) && Stored(x, d, r)
    requires Claimed(x, d, n) && Names(x.h, w, n) && d' == WithWord(x, d, r, w)
    requires MetaOf(x, d') == Relink(MetaOf(x, d), r, One(n, true))
    requires OtherWordsSame(x, d, d', r) && SlotWord(x, d', r) == w
    requires Sole(x, d, Keeper(x, d, r), Home(x, d, r).0)
    ensures Linked(x, d, d', r, n)
  {
    hide SlotWord, CountOf, Content, Legal, WithWord, Word, Home, Claimed, Sole, Stored, Slots, OtherWordsSame;
    var m := MetaOf(x, d);
    ClaimedMeans(x, d, n);
    assert r in m.refs && m.refs[r] == RefOf(x, d, r);
    LinkInv(m, r, n, true);
    forall y: nat ensures CountOf(x, d', y) == CountOf(x, d, y) {
      assert Count(MetaOf(x, d'), y) == Count(m, y);
    }
    forall y: nat | Claimed(x, d, y) && y != n ensures Claimed(x, d', y) && At(d', y) == At(d, y) {
      LinkKeeps(x, d, r, n, w, d', y);
    }
  }

  lemma LinkKeeps(x: Context, d: Clusters, r: Slot, n: nat, w: u64, d': Clusters, y: nat)
    requires Whole(x.h.ClusterSize(), d) && Inv(MetaOf(x, d)) && ValidSlot(x, r) && !Owned(r) && Stored(x, d, r)
    requires d' == WithWord(x, d, r, w) && MetaOf(x, d') == Relink(MetaOf(x, d), r, One(n, true))
    requires Claimed(x, d, y) && y != n
    ensures Claimed(x, d', y) && At(d', y) == At(d, y)
  {
    hide SlotWord, CountOf, Content, WithWord, Word, Home, Inv;
    var m := MetaOf(x, d);
    UnusedAlone(x, d, y);
    KeeperTouches(x, d, r);
    WithWordAt(x, d, r, w, y);
    NoUsers(m, y);
    RelinkUsers(m, r, One(n, true), y);
    assert Count(MetaOf(x, d'), y) == Count(m, y);
  }

  lemma L1Write(x: Context, c: Core, i: nat, n: nat, w: u64)
    requires DeviceOK(x, c) && ValidSlot(x, Table(0, i)) && Names(x.h, w, n)
    requires Claimed(x, D(c), n) && HoldsTable(x, D(c), i, n) && Fits(x.h, n, c.imageLen)
    ensures var o := DevWrite(c, c.h.l1TableOffset + 8 * i, Encode(w, 8));
            && o.Good? && Quiet(x, c, o.s) && o.s == c.(dev := o.s.dev, imageLen := o.s.imageLen, log := o.s.log)
            && SlotWord(x, D(o.s), Table(0, i)) == w && Linked(x, D(c), D(o.s), Table(0, i), n)
  {
    hide SlotWord, CountOf, Content, Legal, WithWord, Word, Home, HoldsTable, Mul, Div, Mod, Encode, Linked,
      AddressOf, MetaOf, Claimed, Quiet, SameContents, OtherWordsSame, Sole, Keeper, Inv, Put, Names, Fits, Cl,
      DevWrite, RefOf, Slots, Users, RefOfWord;
    var r := Table(0, i);
    var d' := WithWord(x, D(c), r, w);
    LinkTable(x, D(c), c.imageLen, i, n, w, d');
    KeeperAlone(x, D(c), r);
    LinkedD(x, D(c), c.imageLen, r, n, w, d');
    L1Address(x, D(c), i);
    SlotWrite(x, c, r, w, c.h.l1TableOffset + 8 * i);
  }

  /** An L1 entry is pointed at a claimed cluster that holds the same words. */
  lemma UpdateL1OK(x: Context, c: Core, i: nat, n: nat)
    requires CoreOK(x, c) && i < x.h.l1Size && n > 0
    requires Claimed(x, D(c), n) && HoldsTable(x, D(c), i, n) && Fits(x.h, n, c.imageLen)
    ensures var w := EntryFor(Mul(n, x.h.ClusterSize()));
            var r := UpdateL1Entry(c, i, w);
            && r.Good? && Quiet(x, c, r.s) && CoreOK(x, r.s) && r.s.l1 == c.l1[i := w]
            && Names(x.h, w, n) && SlotWord(x, D(r.s), Table(0, i)) == w
            && Linked(x, D(c), D(r.s), Table(0, i), n)
  {
    hide SlotWord, CountOf, Content, WellFormed, HoldsTable, Mul, EntryFor, Encode, Linked, MetaOf, Claimed, RootIs,
      FullBetween, SameContents, Names, ClustersOf;
    var w := EntryFor(Mul(n, x.h.ClusterSize()));
    EntryForCluster(x.h, n);
    L1Write(x, c, i, n, w);
    var c1 := DevWrite(c, c.h.l1TableOffset + 8 * i, Encode(w, 8)).s;
    var c2 := UpdateL1Entry(c, i, w).s;
    QuietMemory(x, c, c1, c2);
    assert D(c2) == D(c1);
    MemoryAfterLink(x, c, c2, i, w, n);
  }

  lemma MemoryAfterLink(x: Context, c: Core, c': Core, i: nat, w: u64, n: nat)
    requires MemoryOK(x, c) && i < x.h.l1Size && c'.l1 == c.l1[i := w] && c'.root == c.root && c'.cursor == c.cursor
    requires Linked(x, D(c), D(c'), Table(0, i), n) && SlotWord(x, D(c'), Table(0, i)) == w
    ensures MemoryOK(x, c')
  {
    hide SlotWord, CountOf, Content, Word, KeepsOtherClaims, Slack, RefOf;
    forall z: nat | z < c'.cursor && Present(x, D(c'), z) ensures CountOf(x, D(c'), z) > 0 {
      assert Present(x, D(c), z);
    }
  }

  /** Entry i names the table at off, nothing else does, and no guest view, no account and no claim has moved. */
  ghost predicate PrivateTable(x: Context, d: Clusters, d': Clusters, i: nat, off: nat)
    requires ValidSlot(x, Table(0, i))
  {
    && off == HostOffset(SlotWord(x, d', Table(0, i))) != 0
    && Sole(x, d', Table(0, i), Div(off, x.h.ClusterSize()))
    && KeepsData(x, d, d') && SameSlack(x, d, d') && KeepsClaims(x, d, d')
  }

  lemma SoleAfterLink(x: Context, d: Clusters, len: nat, i: nat, n: nat)
    requires WellFormed(x, d, len) && ValidSlot(x, Table(0, i)) && RefOf(x, d, Table(0, i)) == One(n, true)
    requires CountOf(x, d, n) == 1
    ensures Sole(x, d, Table(0, i), n)
  {
    hide SlotWord, CountOf, Legal;
    CountedOnceAlone(x, d, Table(0, i), n);
  }

  /** The steps before an L1 entry moves: a claimed cluster has been filled. */
  ghost predicate Prepared(x: Context, c: Core, c': Core, n: nat, buf: seq<byte>)
    requires c.h == x.h
  {
    && Quiet(x, c, c') && CoreOK(x, c') && c'.l1 == c.l1
    && n > 0 && Claimed(x, D(c'), n) && At(D(c'), n) == buf && Fits(x.h, n, c'.imageLen)
    && Mul(n, x.h.ClusterSize()) < BIT_56
    && KeepsTableWords(x, D(c), D(c')) && KeepsClaims(x, D(c), D(c')) && CountOf(x, D(c), n) == 0
    && (forall y: nat :: Slack(MetaOf(x, D(c')), y) == Slack(MetaOf(x, D(c)), y) + Bit(y == n))
    && (forall y: nat :: CountOf(x, D(c), y) > 0 ==> CountOf(x, D(c'), y) == CountOf(x, D(c), y))
  }

  lemma KeepsClaimsThrough(x: Context, d: Clusters, d1: Clusters, n: nat, buf: seq<byte>)
    requires KeepsClaims(x, d, d1) && CountOf(x, d, n) == 0 && MetaOf(x, d1[n := buf]) == MetaOf(x, d1)
    ensures KeepsClaims(x, d, d1[n := buf])
  {
    hide SlotWord, CountOf;
    forall y: nat | Claimed(x, d, y)
      ensures Claimed(x, d1[n := buf], y) && At(d1[n := buf], y) == At(d, y)
    {
      assert Claimed(x, d1, y) && y != n;
      assert Count(MetaOf(x, d1[n := buf]), y) == Count(MetaOf(x, d1), y);
    }
  }

  lemma FillMemory(x: Context, c: Core, c': Core)
    requires MemoryOK(x, c) && c' == c.(dev := c'.dev, imageLen := c'.imageLen, log := c'.log)
    requires SameWords(x, D(c), D(c')) && SameCounts(x, D(c), D(c'))
    ensures MemoryOK(x, c')
  {
    hide SlotWord, CountOf, Word;
    forall z: nat | z < c'.cursor && Present(x, D(c'), z) ensures CountOf(x, D(c'), z) > 0 {
      assert Present(x, D(c), z);
    }
  }

  lemma SameMetaCounts(x: Context, d: Clusters, d': Clusters)
    requires MetaOf(x, d') == MetaOf(x, d)
    ensures SameCounts(x, d, d')
  {
    hide SlotWord, CountOf;
    forall y: nat ensures CountOf(x, d', y) == CountOf(x, d, y) {
      assert Count(MetaOf(x, d'), y) == Count(MetaOf(x, d), y);
    }
  }

  /** Allocate, then fill. */
  lemma PrepareOK(x: Context, c: Core, buf: seq<byte>)
    requires CoreOK(x, c) && |buf| == x.h.ClusterSize()
    ensures var a := AllocateCluster(c);
            a.Good? ==>
              && var n := Div(a.v, x.h.ClusterSize());
              && a.v == Mul(n, x.h.ClusterSize())
              && var r := DevWrite(a.s, a.v, buf);
              && r.Good? && Prepared(x, c, r.s, n, buf)
  {
    hide SlotWord, CountOf, Content, Legal, WithWord, Word, Home, Mul, Div, Mod, AllocateCluster, Claimed, FullBetween,
      RootIs, Inv, Slack, DevWrite;
    AllocateOK(x, c);
    var a := AllocateCluster(c);
    if a.Good? {
      var n := Div(a.v, x.h.ClusterSize());
      ClaimedMeans(x, D(a.s), n);
      FillWrite(x, a.s, n, buf);
      var c2 := DevWrite(a.s, a.v, buf).s;
      QuietTrans(x, c, a.s, c2);
      SameMetaCounts(x, D(a.s), D(c2));
      ClaimedMeans(x, D(c2), n);
      FillMemory(x, a.s, c2);
      KeepsClaimsThrough(x, D(c), D(a.s), n, buf);
    }
  }

  lemma ClaimsJoin(x: Context, d: Clusters, d1: Clusters, d2: Clusters, n: nat)
    requires KeepsClaims(x, d, d1) && KeepsOtherClaims(x, d1, d2, n) && CountOf(x, d, n) == 0
    ensures KeepsClaims(x, d, d2)
  {
    hide SlotWord, CountOf, MetaOf;
  }

  /** A claimed, filled cluster becomes the table that entry i names. */
  lemma PreparedOK(x: Context, c: Core, c': Core, n: nat, buf: seq<byte>)
    requires c.h == x.h && Prepared(x, c, c', n, buf)
    ensures CoreOK(x, c') && n > 0 && Mul(n, x.h.ClusterSize()) < BIT_56 && c'.l1 == c.l1
  {}

  /** Entry i of the active L1 table has been pointed at a prepared table. */
  ghost predicate Installed(x: Context, c: Core, c': Core, i: nat, n: nat, w: u64)
    requires c.h == x.h && c'.h == x.h && ValidSlot(x, Table(0, i))
  {
    && Quiet(x, c, c') && CoreOK(x, c') && |c'.l1| == |c.l1|
    && HostOffset(w) == Mul(n, x.h.ClusterSize()) != 0 && SlotWord(x, D(c'), Table(0, i)) == w
    && Sole(x, D(c'), Table(0, i), n) && CountOf(x, D(c'), n) == 1
    && KeepsData(x, D(c), D(c')) && KeepsClaims(x, D(c), D(c'))
    && (forall y: nat ::
          Slack(MetaOf(x, D(c')), y) == Slack(MetaOf(x, D(c)), y) + Bit(Touches(RefOf(x, D(c), Table(0, i)), y)))
    && (forall y: nat :: CountOf(x, D(c), y) > 0 ==> CountOf(x, D(c'), y) == CountOf(x, D(c), y))
  }

  lemma InstallTable(x: Context, c: Core, c2: Core, i: nat, n: nat, buf: seq<byte>)
    requires c.h == x.h && c2.h == x.h && ValidSlot(x, Table(0, i))
    requires CoreOK(x, c) && Prepared(x, c, c2, n, buf) && HoldsTable(x, D(c2), i, n)
    ensures var w := EntryFor(Mul(n, x.h.ClusterSize()));
            var r := UpdateL1Entry(c2, i, w);
            r.Good? && r.s.h == x.h && Installed(x, c, r.s, i, n, w)
  {
    hide SlotWord, CountOf, Content, WellFormed, WithWord, Word, Home, HoldsTable, Mul, Div, Mod, EntryFor, Claimed,
      FullBetween, RootIs, Slack, UpdateL1Entry, MetaOf;
    var w := EntryFor(Mul(n, x.h.ClusterSize()));
    UpdateL1OK(x, c2, i, n);
    var r := UpdateL1Entry(c2, i, w);
    QuietTrans(x, c, c2, r.s);
    ClaimedMeans(x, D(c2), n);
    SoleAfterLink(x, D(r.s), r.s.imageLen, i, n);
    ClaimsJoin(x, D(c), D(c2), D(r.s), n);
    assert ValidSlot(x, Table(0, i)) && RefOf(x, D(c2), Table(0, i)) == RefOf(x, D(c), Table(0, i));
  }

  lemma ZeroTable(x: Context, d: Clusters, i: nat, n: nat)
    requires ValidSlot(x, Table(0, i)) && HostOffset(SlotWord(x, d, Table(0, i))) == 0
    requires At(d, n) == Zeros(x.h.ClusterSize())
    ensures HoldsTable(x, d, i, n)
  {
    forall j: nat | j < x.h.L2Entries() ensures Word(At(d, n), j) == SlotWord(x, d, Data(0, i, j)) {
      WordZeros(x.h.ClusterSize(), j);
    }
  }

  /** An absent L2 table is allocated: every entry under it stays zero. */
  lemma AllocateL2TableOK(x: Context, c: Core, i: nat)
    requires CoreOK(x, c) && i < x.h.l1Size && HostOffset(c.l1[i]) == 0
    ensures var r := AllocateL2Table(c, i);
            && Quiet(x, c, r.s) && CoreOK(x, r.s) && |r.s.l1| == |c.l1|
            && (r.Bad? ==> r.s == c.(root := r.s.root) && AllocateCluster(c) == Bad(r.s, r.e))
            && (r.Good? ==> PrivateTable(x, D(c), D(r.s), i, r.v)
                            && CountOf(x, D(r.s), Div(r.v, x.h.ClusterSize())) == 1)
  {
    hide SlotWord, CountOf, Content, WellFormed, WithWord, Word, Home, HoldsTable, Mul, Div, Mod, EntryFor, Claimed,
      FullBetween, RootIs, Slack, UpdateL1Entry, MetaOf, AllocateCluster, DevWrite, HostOffset, Prepared, Quiet;
    AllocateOK(x, c);
    var zeros := Zeros(x.h.ClusterSize());
    PrepareOK(x, c, zeros);
    var a := AllocateCluster(c);
    if a.Good? {
      var n := Div(a.v, x.h.ClusterSize());
      var c2 := DevWrite(a.s, a.v, zeros).s;
      PreparedKeeps(x, c, c2, n, zeros, i);
      ZeroTable(x, D(c2), i, n);
      PreparedOK(x, c, c2, n, zeros);
      InstallTable(x, c, c2, i, n, zeros);
      assert RefOf(x, D(c), Table(0, i)) == Nil;
    }
  }

  lemma PreparedKeeps(x: Context, c: Core, c': Core, n: nat, buf: seq<byte>, i: nat)
    requires c.h == x.h && Prepared(x, c, c', n, buf) && ValidSlot(x, Table(0, i))
    ensures SlotWord(x, D(c'), Table(0, i)) == SlotWord(x, D(c), Table(0, i)) && At(D(c'), n) == buf
    ensures SameTable(x, D(c), D(c'), i)
  {
    hide SlotWord, MetaOf, Claimed, Quiet, CoreOK, CountOf, KeepsClaims, Slack, Mul, Home;
  }

  /** The L2 words under entry i of the active table are the same. */
  ghost predicate SameTable(x: Context, d: Clusters, d': Clusters, i: nat)
    requires ValidSlot(x, Table(0, i))
  {
    forall j: nat | j < x.h.L2Entries() :: SlotWord(x, d', Data(0, i, j)) == SlotWord(x, d, Data(0, i, j))
  }

  // ---- copying a shared table ----

  /** A present L1 entry names a whole cluster of the image, and its words are the slots under it. */
  lemma TableThere(x: Context, d: Clusters, len: nat, i: nat)
    requires Legal(x, d, len) && ValidSlot(x, Table(0, i)) && HostOffset(SlotWord(x, d, Table(0, i))) != 0
    ensures var off := HostOffset(SlotWord(x, d, Table(0, i)));
            var t := Div(off, x.h.ClusterSize());
            && off == Mul(t, x.h.ClusterSize()) && Fits(x.h, t, len)
            && L2TableOffset(x.h, len, SlotWord(x, d, Table(0, i))) == Ok(Some(off))
            && Touches(RefOf(x, d, Table(0, i)), t)
            && forall j: nat | j < x.h.L2Entries() :: Word(At(d, t), j) == SlotWord(x, d, Data(0, i, j))
  {
    hide Mul, Div, Mod, Word, HostOffset;
    var w := SlotWord(x, d, Table(0, i));
    assert LegalWord(x.h, Table(0, i), w, len);
    Aligned(HostOffset(w), x.h.ClusterSize());
  }

  lemma CopyHolds(x: Context, d: Clusters, len: nat, d2: Clusters, i: nat, n: nat)
    requires Legal(x, d, len) && ValidSlot(x, Table(0, i)) && HostOffset(SlotWord(x, d, Table(0, i))) != 0
    requires SameTable(x, d, d2, i)
    requires At(d2, n) == At(d, Div(HostOffset(SlotWord(x, d, Table(0, i))), x.h.ClusterSize()))
    ensures HoldsTable(x, d2, i, n)
  {
    hide Mul, Div, Mod, Word, HostOffset, SlotWord, Legal;
    TableThere(x, d, len, i);
  }

  lemma SoleSameWords(x: Context, d: Clusters, d': Clusters, f: Slot, c: nat)
    requires Sole(x, d, f, c) && SameWords(x, d, d')
    ensures Sole(x, d', f, c)
  {
    hide SlotWord, RefOfWord;
    forall s | ValidSlot(x, s) && s != f ensures !Touches(RefOf(x, d', s), c) {
      assert RefOf(x, d', s) == RefOf(x, d, s);
    }
  }

  lemma NotClaimed(x: Context, d: Clusters, r: Slot, c: nat)
    requires ValidSlot(x, r) && Touches(RefOf(x, d, r), c)
    ensures !Claimed(x, d, c)
  {
    hide SlotWord;
    assert r in MetaOf(x, d).refs && MetaOf(x, d).refs[r] == RefOf(x, d, r);
    UserCounted(MetaOf(x, d), r, c);
  }

  lemma ReleaseOldTable(x: Context, d: Clusters, d3: Clusters, d4: Clusters, i: nat, n: nat, t: nat, off: nat)
    requires ValidSlot(x, Table(0, i)) && Touches(RefOf(x, d, Table(0, i)), t)
    requires Sole(x, d3, Table(0, i), n) && KeepsData(x, d, d3) && KeepsClaims(x, d, d3)
    requires forall y: nat ::
               Slack(MetaOf(x, d3), y) == Slack(MetaOf(x, d), y) + Bit(Touches(RefOf(x, d, Table(0, i)), y))
    requires Released(x, d3, d4, t)
    requires off == HostOffset(SlotWord(x, d3, Table(0, i))) != 0 && n == Div(off, x.h.ClusterSize())
    ensures PrivateTable(x, d, d4, i, off)
  {
    hide SlotWord, CountOf, MetaOf, Slack, Claimed, HostOffset, Div, RefOfWord, SameWords, Sole;
    SoleSameWords(x, d3, d4, Table(0, i), n);
    NotClaimed(x, d, Table(0, i), t);
    WordKept(x, d3, d4, Table(0, i));
    forall r | ValidSlot(x, r) && r.Data? ensures SlotWord(x, d4, r) == SlotWord(x, d, r) {
      WordKept(x, d3, d4, r);
    }
    forall y: nat ensures Slack(MetaOf(x, d4), y) == Slack(MetaOf(x, d), y) {
      TableTouches(x, d, i, t, y);
    }
  }

  lemma WordKept(x: Context, d: Clusters, d': Clusters, r: Slot)
    requires SameWords(x, d, d') && ValidSlot(x, r)
    ensures SlotWord(x, d', r) == SlotWord(x, d, r)
  {}

  lemma TableTouches(x: Context, d: Clusters, i: nat, t: nat, y: nat)
    requires ValidSlot(x, Table(0, i)) && Touches(RefOf(x, d, Table(0, i)), t)
    ensures Touches(RefOf(x, d, Table(0, i)), y) <==> y == t
  {}

  /** A shared L2 table is copied verbatim; the old one loses exactly the share that moved. */
  lemma CopyL2TableOK(x: Context, c: Core, i: nat, off: nat)
    requires CoreOK(x, c) && i < x.h.l1Size && off == HostOffset(c.l1[i]) != 0
    ensures var r := CopyL2Table(c, i, off);
            && Quiet(x, c, r.s) && CoreOK(x, r.s) && |r.s.l1| == |c.l1|
            && (r.Bad? ==> r.s == c.(root := r.s.root) && AllocateCluster(c) == Bad(r.s, r.e))
            && (r.Good? ==> PrivateTable(x, D(c), D(r.s), i, r.v)
                            && CountOf(x, D(r.s), Div(off, x.h.ClusterSize())) + 1
                            == CountOf(x, D(c), Div(off, x.h.ClusterSize())))
  {
    hide SlotWord, CountOf, Content, Legal, WithWord, Word, Home, HoldsTable, Mul, Div, Mod, EntryFor, Claimed,
      FullBetween, RootIs, Slack, UpdateL1Entry, MetaOf, AllocateCluster, DevWrite, HostOffset, Prepared, Quiet, Inv,
      DecrementRefcount, PrivateTable, ClustersOf, Sole;
    var cs := x.h.ClusterSize();
    AllocateOK(x, c);
    TableThere(x, D(c), c.imageLen, i);
    var t := Div(off, cs);
    ReadWhole(c.h, c.dev, t);
    TouchedCounted(x, D(c), c.imageLen, Table(0, i), t);
    var bytes := At(D(c), t);
    assert DevRead(c, off, cs) == Ok(bytes);
    PrepareOK(x, c, bytes);
    var a := AllocateCluster(c);
    if a.Good? {
      var n := Div(a.v, cs);
      var c2 := DevWrite(a.s, a.v, bytes).s;
      PreparedKeeps(x, c, c2, n, bytes, i);
      CopyHolds(x, D(c), c.imageLen, D(c2), i, n);
      PreparedOK(x, c, c2, n, bytes);
      InstallTable(x, c, c2, i, n, bytes);
      var c3 := UpdateL1Entry(c2, i, EntryFor(a.v)).s;
      SlackNotNegative(x, D(c), c.imageLen, t);
      DecrementOK(x, c3, off);
      QuietTrans(x, c, c3, DecrementRefcount(c3, off).s);
      ReleaseOldTable(x, D(c), D(c3), D(DecrementRefcount(c3, off).s), i, n, t, a.v);
    }
  }

  lemma SlackNotNegative(x: Context, d: Clusters, len: nat, y: nat)
    requires WellFormed(x, d, len)
    ensures Slack(MetaOf(x, d), y) >= 0
  {
    hide CountOf, Users;
    assert Count(MetaOf(x, d), y) >= |Users(MetaOf(x, d), y)|;
  }

  // ---- a table to write into ----

  lemma PrivateAlready(x: Context, d: Clusters, len: nat, i: nat, off: nat)
    requires WellFormed(x, d, len) && ValidSlot(x, Table(0, i))
    requires off == HostOffset(SlotWord(x, d, Table(0, i))) != 0
    requires Copied(SlotWord(x, d, Table(0, i))) || CountOf(x, d, Div(off, x.h.ClusterSize())) <= 1
    ensures PrivateTable(x, d, d, i, off)
  {
    hide SlotWord, CountOf, Legal, Div, HostOffset, Copied;
    var m, r := MetaOf(x, d), Table(0, i);
    assert r in m.refs && m.refs[r] == RefOf(x, d, r);
    CountedOnceAlone(x, d, r, Div(off, x.h.ClusterSize()));
  }

  lemma SharingKnown(x: Context, c: Core, i: nat, l1Entry: nat, off: nat)
    requires DeviceOK(x, c) && Wide16(x.h) && CountOf(x, D(c), Div(off, x.h.ClusterSize())) > 0
    ensures L2TableIsShared(c, l1Entry, off)
         == Ok(!Copied(l1Entry) && CountOf(x, D(c), Div(off, x.h.ClusterSize())) > 1)
  {
    hide CountOf, Legal, Inv, ReadRefcount, ClustersOf, Div, Mod, Mul;
    CountedHasRoot(x, D(c), c.imageLen, Div(off, x.h.ClusterSize()));
    ReadRefcountOK(x, c, off);
  }

  lemma TouchedCounted(x: Context, d: Clusters, len: nat, r: Slot, c: nat)
    requires WellFormed(x, d, len) && ValidSlot(x, r) && Touches(RefOf(x, d, r), c)
    ensures CountOf(x, d, c) > 0
  {
    hide SlotWord, CountOf, Legal;
    var m := MetaOf(x, d);
    assert r in m.refs && m.refs[r] == RefOf(x, d, r);
    UserCounted(m, r, c);
    assert Count(m, c) >= |Users(m, c)|;
  }

  /** Whatever entry i named before, afterwards it names a table of its own with the same words. */
  lemma OwnL2TableOK(x: Context, c: Core, i: nat)
    requires CoreOK(x, c) && i < x.h.l1Size && Wide16(x.h)
    ensures var r := OwnL2Table(c, i);
            && Quiet(x, c, r.s) && CoreOK(x, r.s) && |r.s.l1| == |c.l1|
            && (r.Bad? ==> r.s == c.(root := r.s.root) && AllocateCluster(c) == Bad(r.s, r.e))
            && (r.Good? ==> PrivateTable(x, D(c), D(r.s), i, r.v))
  {
    hide SlotWord, CountOf, Content, Legal, Mul, Div, Mod, Claimed, FullBetween, RootIs, Slack, MetaOf, HostOffset,
      Quiet, Inv, PrivateTable, ClustersOf, Copied, AllocateL2Table, CopyL2Table, L2TableIsShared, L1ReservedBits;
    assert ValidSlot(x, Table(0, i));
    if HostOffset(c.l1[i]) == 0 {
      EmptyEntry(x, D(c), c.imageLen, i);
      AllocateL2TableOK(x, c, i);
      var a := AllocateL2Table(c, i);
      if a.Good? { SharingKnown(x, a.s, i, c.l1[i], a.v); }
    } else {
      var off := HostOffset(c.l1[i]);
      TableThere(x, D(c), c.imageLen, i);
      TouchedCounted(x, D(c), c.imageLen, Table(0, i), Div(off, x.h.ClusterSize()));
      SharingKnown(x, c, i, c.l1[i], off);
      QuietSelf(x, c);
      if L2TableIsShared(c, c.l1[i], off).value {
        CopyL2TableOK(x, c, i, off);
      } else {
        PrivateAlready(x, D(c), c.imageLen, i, off);
      }
    }
  }

  /** A table with one reference stays where it is and nothing changes, whatever its L1 entry's flag; one with more is
      not taken. */
  lemma OwnTableByCount(x: Context, c: Core, i: nat)
    requires CoreOK(x, c) && i < x.h.l1Size && Wide16(x.h) && HostOffset(c.l1[i]) != 0
    ensures var off := HostOffset(c.l1[i]);
            var n, r := CountOf(x, D(c), Div(off, x.h.ClusterSize())), OwnL2Table(c, i);
            && (n == 1 ==> r == Good(c, off))
            && (n > 1 && !Copied(c.l1[i]) ==> r == CopyL2Table(c, i, off))
  {
    hide SlotWord, CountOf, Legal, Mul, Div, Mod, FullBetween, RootIs, MetaOf, HostOffset, Inv, ClustersOf, Copied,
      CopyL2Table, L2TableIsShared, L1ReservedBits;
    assert ValidSlot(x, Table(0, i));
    var off := HostOffset(c.l1[i]);
    TableThere(x, D(c), c.imageLen, i);
    TouchedCounted(x, D(c), c.imageLen, Table(0, i), Div(off, x.h.ClusterSize()));
    SharingKnown(x, c, i, c.l1[i], off);
  }

  /** On any device, an L1 index past the table is refused by name, and nothing changes. */
  lemma NoSuchL1Entry(c: Core, i: nat, j: nat, w: u64)
    requires i >= |c.l1|
    ensures UpdateL1Entry(c, i, w) == Bad(c, L1Index) && UpdateL2Entry(c, i, j, w) == Bad(c, L1Index)
  {}

  lemma EmptyEntry(x: Context, d: Clusters, len: nat, i: nat)
    requires Legal(x, d, len) && ValidSlot(x, Table(0, i)) && HostOffset(SlotWord(x, d, Table(0, i))) == 0
    ensures L2TableOffset(x.h, len, SlotWord(x, d, Table(0, i))) == Ok(None)
  {
    hide HostOffset;
    assert LegalWord(x.h, Table(0, i), SlotWord(x, d, Table(0, i)), len);
  }
}
