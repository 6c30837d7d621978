/** The allocator: what a claim of a free cluster changes, and that scanning finds the first free one. */
module Allocation {
  import opened Bytes
  import opened Arith
  import opened Format
  import opened Accounting
  import opened Disk
  import opened DiskSteps
  import opened Images

  // ---- claiming, cluster by cluster ----

  ghost predicate KeepsClaims(x: Context, d: Clusters, d': Clusters) {
    forall y: nat | Claimed(x, d, y) :: Claimed(x, d', y) && At(d', y) == At(d, y)
  }

  ghost predicate KeepsTableWords(x: Context, d: Clusters, d': Clusters) {
    forall r | ValidSlot(x, r) && !r.Block? :: SlotWord(x, d', r) == SlotWord(x, d, r)
  }

  /** Cluster n was free and is now claimed; no other refcount that was above zero moved, no table entry changed,
      and what was claimed before is claimed still, with its bytes. */
  ghost predicate Claims(x: Context, d: Clusters, d': Clusters, n: nat) {
    && CountOf(x, d, n) == 0 && Claimed(x, d', n)
    && (forall y: nat :: Slack(MetaOf(x, d'), y) == Slack(MetaOf(x, d), y) + Bit(y == n))
    && (forall y: nat :: CountOf(x, d, y) > 0 ==> CountOf(x, d', y) == CountOf(x, d, y))
    && KeepsTableWords(x, d, d') && KeepsClaims(x, d, d')
  }

  /** A claim lasts while neither the refcount nor the slack of the cluster moves. */
  lemma ClaimLasts(m: Meta, m': Meta, y: nat)
    requires Users(m, y) == {} && Count(m', y) == Count(m, y) && Slack(m', y) == Slack(m, y)
    ensures Users(m', y) == {}
  {}

  lemma ClaimEntryKeeps(x: Context, d: Clusters, len: nat, b: nat, e: nat, y: nat)
    requires WellFormed(x, d, len) && Wide16(x.h) && ValidSlot(x, Block(b)) && SlotWord(x, d, Block(b)) != 0
    requires e < EntriesPerBlock(x.h) && CountOf(x, d, EntryCluster(x.h, b, e)) == 0 && Claimed(x, d, y)
    ensures Claimed(x, WithCount(x, d, b, e, 1), y) && At(WithCount(x, d, b, e, 1), y) == At(d, y)
  {
    hide SlotWord, Content, CountOf, Legal, Inv;
    SetCount(x, d, len, b, e, 1);
    RecountUsers(MetaOf(x, d), EntryCluster(x.h, b, e), 1, y);
    UnusedAlone(x, d, y);
    assert Touches(RefOf(x, d, Block(b)), BlockCluster(x, d, b));
  }

  /** Setting a free entry to one claims its cluster. */
  lemma ClaimEntryD(x: Context, d: Clusters, len: nat, b: nat, e: nat)
    requires WellFormed(x, d, len) && Wide16(x.h) && ValidSlot(x, Block(b)) && SlotWord(x, d, Block(b)) != 0
    requires e < EntriesPerBlock(x.h) && CountOf(x, d, EntryCluster(x.h, b, e)) == 0
    ensures WellFormed(x, WithCount(x, d, b, e, 1), len) && SameContents(x, d, WithCount(x, d, b, e, 1))
    ensures Claims(x, d, WithCount(x, d, b, e, 1), EntryCluster(x.h, b, e))
    ensures SameWords(x, d, WithCount(x, d, b, e, 1))
    ensures forall y: nat :: CountOf(x, WithCount(x, d, b, e, 1), y)
                          == if y == EntryCluster(x.h, b, e) then 1 else CountOf(x, d, y)
  {
    hide SlotWord, Content, CountOf, Legal, MetaOf, WithCount, Claimed, Slack;
    var d' := WithCount(x, d, b, e, 1);
    var n := EntryCluster(x.h, b, e);
    SetCount(x, d, len, b, e, 1);
    ClaimInv(MetaOf(x, d), n);
    forall y: nat ensures CountOf(x, d', y) == if y == n then 1 else CountOf(x, d, y) {
      RecountUsers(MetaOf(x, d), n, 1, y);
    }
    assert Claimed(x, d', n) by { ClaimedMeans(x, d', n); }
    forall y: nat | Claimed(x, d, y) ensures Claimed(x, d', y) && At(d', y) == At(d, y) {
      ClaimEntryKeeps(x, d, len, b, e, y);
    }
  }

  lemma ClaimedMeans(x: Context, d: Clusters, n: nat)
    ensures Claimed(x, d, n) <==> Users(MetaOf(x, d), n) == {} && CountOf(x, d, n) == 1
  {}

  lemma EmptyBlockClaims(x: Context, d: Clusters, len: nat, n: nat, v: seq<byte>)
    requires WellFormed(x, d, len) && |v| == x.h.ClusterSize() && CountOf(x, d, n) == 0
    ensures KeepsClaims(x, d, d[n := v])
  {
    hide SlotWord, Content, CountOf, Legal, Slots;
    Unused(MetaOf(x, d), n);
    FillUnused(x, d, len, n, v);
    forall y: nat | Claimed(x, d, y) ensures Claimed(x, d[n := v], y) && y != n {
      assert Count(MetaOf(x, d[n := v]), y) == Count(MetaOf(x, d), y);
    }
  }

  lemma LinkBlockKeeps(x: Context, d: Clusters, b: nat, w: u64, y: nat)
    requires Whole(x.h.ClusterSize(), d) && Inv(MetaOf(x, d)) && ValidSlot(x, Block(b)) && Claimed(x, d, y)
    ensures At(WithWord(x, d, Block(b), w), y) == At(d, y)
  {
    hide SlotWord, Content, CountOf, Inv, WithWord;
    KeeperTouches(x, d, Block(b));
    UnusedAlone(x, d, y);
    WithWordAt(x, d, Block(b), w, y);
  }

  lemma EmptySlot(x: Context, d: Clusters, b: nat)
    requires ValidSlot(x, Block(b)) && SlotWord(x, d, Block(b)) == 0
    ensures Block(b) in MetaOf(x, d).refs && MetaOf(x, d).refs[Block(b)] == Nil
  {}

  /** Pointing refcount table entry b at a fresh block claims the second cluster of its range. */
  lemma LinkBlockD(x: Context, d: Clusters, len: nat, b: nat, first: nat, claimed: nat, w: u64, d': Clusters)
    requires WellFormed(x, d, len) && Wide16(x.h) && ValidSlot(x, Block(b)) && SlotWord(x, d, Block(b)) == 0 && b > 0
    requires first == EntryCluster(x.h, b, 0) && claimed == EntryCluster(x.h, b, 1)
    requires w == Mul(first, x.h.ClusterSize()) && Fits(x.h, first, len) && d' == WithWord(x, d, Block(b), w)
    requires At(d, first) == FreshBlock(x.h.ClusterSize())
    ensures WellFormed(x, d', len) && SameContents(x, d, d')
    ensures Claims(x, d, d', claimed) && OtherWordsSame(x, d, d', Block(b))
    ensures forall y: nat :: CountOf(x, d', y) == if y == first || y == claimed then 1 else CountOf(x, d, y)
  {
    hide SlotWord, Content, CountOf, Legal, FreshBlock, WithWord, Claimed, Slack, MetaOf, Fits;
    LinkBlock(x, d, len, b, first, w, d');
    EmptyRange(x, d, b, first, 0);
    EmptyRange(x, d, b, claimed, 1);
    EmptySlot(x, d, b);
    BlockInv(MetaOf(x, d), b, first, claimed);
    forall y: nat ensures CountOf(x, d', y) == if y == first || y == claimed then 1 else CountOf(x, d, y) {
      assert Count(MetaOf(x, d'), y) == if y == first || y == claimed then 1 else Count(MetaOf(x, d), y);
    }
    assert Claimed(x, d', claimed) by { ClaimedMeans(x, d', claimed); }
    forall y: nat | Claimed(x, d, y) ensures Claimed(x, d', y) && At(d', y) == At(d, y) {
      ClaimedMeans(x, d, y);
      ClaimedMeans(x, d', y);
      LinkBlockKeeps(x, d, b, w, y);
      ClaimLasts(MetaOf(x, d), MetaOf(x, d'), y);
    }
  }
}
