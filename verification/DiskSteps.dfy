/** What one write to one cluster changes: which slot words, which refcounts, which guest contents. */
module DiskSteps {
  import opened Bytes
  import opened Arith
  import opened Format
  import opened Accounting
  import opened Disk

  ghost predicate SameWords(x: Context, d: Clusters, d': Clusters) {
    forall r :: ValidSlot(x, r) ==> SlotWord(x, d', r) == SlotWord(x, d, r)
  }

  ghost predicate SameCounts(x: Context, d: Clusters, d': Clusters) {
    forall c: nat :: CountOf(x, d', c) == CountOf(x, d, c)
  }

  /** Nothing but f names cluster c. */
  ghost predicate Sole(x: Context, d: Clusters, f: Slot, c: nat) {
    forall s :: ValidSlot(x, s) && s != f ==> !Touches(RefOf(x, d, s), c)
  }

  /** No table, refcount block or fixed structure is stored in cluster c. */
  ghost predicate NoTableIn(x: Context, d: Clusters, c: nat) {
    forall s :: ValidSlot(x, s) && !s.Data? ==> !Touches(RefOf(x, d, s), c)
  }

  /** The slot naming the cluster that r's own word is stored in. */
  ghost function Keeper(x: Context, d: Clusters, r: Slot): Slot
    requires ValidSlot(x, r)
  {
    match r
    case Fixed(_, _) => r
    case Block(_) => Fixed(1, Home(x, d, r).0)
    case Table(k, _) => Fixed(3 + k, Home(x, d, r).0)
    case Data(k, i, _) => Table(k, i)
  }

  ghost predicate Stored(x: Context, d: Clusters, r: Slot)
    requires ValidSlot(x, r)
  {
    !r.Fixed? && (r.Data? ==> HostOffset(SlotWord(x, d, Table(r.k, r.i))) != 0)
  }

  lemma KeeperTouches(x: Context, d: Clusters, r: Slot)
    requires ValidSlot(x, r) && Stored(x, d, r)
    ensures ValidSlot(x, Keeper(x, d, r)) && !Keeper(x, d, r).Data? && !Keeper(x, d, r).Block?
    ensures Touches(RefOf(x, d, Keeper(x, d, r)), Home(x, d, r).0)
    ensures Home(x, d, r).1 < x.h.L2Entries()
  {
    var n := x.h.L2Entries();
    match r
    case Block(b) => DivLess(b, x.h.refcountTableClusters, n);
    case Table(k, i) => CeilCovers(i, L1(x, k).size, n);
    case Data(k, i, j) =>
  }

  lemma CeilCovers(i: nat, size: nat, n: nat)
    requires n > 0 && i < size
    ensures Div(i, n) < CeilDiv(size, n)
  {
    DivMono(i + n, size + n - 1, n);
  }

  lemma HomeInjective(x: Context, d: Clusters, r: Slot, s: Slot)
    requires ValidSlot(x, r) && ValidSlot(x, s) && !r.Fixed? && !s.Fixed?
    requires Keeper(x, d, r) == Keeper(x, d, s) && Home(x, d, r) == Home(x, d, s)
    ensures r == s
  {
    var n := x.h.L2Entries();
    if r.Block? {
      DivMod(r.b, n);
      DivMod(s.b, n);
    } else if r.Table? {
      DivMod(r.i, n);
      DivMod(s.i, n);
    }
  }

  // ---- contents ----

  /** A guest cluster reads the same when its entry and every host cluster the entry names are the same. */
  lemma ContentKept(x: Context, d: Clusters, d': Clusters, r: Slot)
    requires ValidSlot(x, r) && r.Data? && Whole(x.h.ClusterSize(), d) && Whole(x.h.ClusterSize(), d')
    requires SlotWord(x, d', r) == SlotWord(x, d, r)
    requires forall c: nat :: Touches(RefOf(x, d, r), c) ==> At(d', c) == At(d, c)
    ensures Content(x, d', r) == Content(x, d, r)
  {
    hide SlotWord, DecodeDescriptor, HostOffset, Compressed, ZeroFlag, Copied, Unpack, Payload;
    var w, cs := SlotWord(x, d, r), x.h.ClusterSize();
    if Compressed(w) {
      var (off, span) := DecodeDescriptor(w, x.h.clusterBits);
      PayloadKept(cs, d, d', off, span);
    } else if HostOffset(w) != 0 {
      assert Touches(RefOf(x, d, r), Div(HostOffset(w), cs));
    }
  }

  lemma PayloadKept(cs: nat, d: Clusters, d': Clusters, off: nat, n: nat)
    requires cs > 0 && n >= 1
    requires forall c: nat :: Div(off, cs) <= c <= Div(off + n - 1, cs) ==> At(d', c) == At(d, c)
    ensures Payload(cs, d', off, n) == Payload(cs, d, off, n)
  {
    forall y | 0 <= y < n ensures Payload(cs, d', off, n)[y] == Payload(cs, d, off, n)[y] {
      DivMono(off, off + y, cs);
      DivMono(off + y, off + n - 1, cs);
    }
  }

  // ---- a cluster no table is stored in ----

  lemma DataWriteWord(x: Context, d: Clusters, c: nat, v: seq<byte>, r: Slot)
    requires NoTableIn(x, d, c) && ValidSlot(x, r)
    ensures SlotWord(x, d[c := v], r) == SlotWord(x, d, r)
    decreases r.Data?
  {
    if r.Data? { DataWriteWord(x, d, c, v, Table(r.k, r.i)); }
    if Stored(x, d, r) { KeeperTouches(x, d, r); }
  }

  lemma DataWrite(x: Context, d: Clusters, c: nat, v: seq<byte>)
    requires Whole(x.h.ClusterSize(), d) && |v| == x.h.ClusterSize() && NoTableIn(x, d, c)
    ensures SameWords(x, d, d[c := v]) && SameCounts(x, d, d[c := v])
    ensures forall r :: ValidSlot(x, r) && r.Data? && !Touches(RefOf(x, d, r), c) ==>
              Content(x, d[c := v], r) == Content(x, d, r)
  {
    var d' := d[c := v];
    forall r | ValidSlot(x, r) ensures SlotWord(x, d', r) == SlotWord(x, d, r) {
      DataWriteWord(x, d, c, v, r);
    }
    forall y: nat ensures CountOf(x, d', y) == CountOf(x, d, y) {
      BlockKept(x, d, c, v, y);
    }
    forall r | ValidSlot(x, r) && r.Data? && !Touches(RefOf(x, d, r), c) ensures Content(x, d', r) == Content(x, d, r) {
      ContentKept(x, d, d', r);
    }
  }

  lemma BlockKept(x: Context, d: Clusters, c: nat, v: seq<byte>, y: nat)
    requires NoTableIn(x, d, c)
    ensures CountOf(x, d[c := v], y) == CountOf(x, d, y)
  {
    var b := Div(y, EntriesPerBlock(x.h));
    if b < RootEntries(x) {
      DataWriteWord(x, d, c, v, Block(b));
      assert ValidSlot(x, Block(b));
      assert !Touches(RefOf(x, d, Block(b)), c);
    }
  }

  // ---- one table word ----

  /** d with the word of slot r replaced by w. */
  ghost function WithWord(x: Context, d: Clusters, r: Slot, w: u64): (d': Clusters)
    requires Whole(x.h.ClusterSize(), d) && ValidSlot(x, r) && Stored(x, d, r)
    ensures Whole(x.h.ClusterSize(), d')
  {
    KeeperTouches(x, d, r);
    var (c, j) := Home(x, d, r);
    d[c := Put(At(d, c), 8 * j, Encode(w, 8))]
  }

  lemma WithWordAt(x: Context, d: Clusters, r: Slot, w: u64, c: nat)
    requires Whole(x.h.ClusterSize(), d) && ValidSlot(x, r) && Stored(x, d, r)
    ensures c != Home(x, d, r).0 ==> At(WithWord(x, d, r, w), c) == At(d, c)
  {}

  ghost function BlockCluster(x: Context, d: Clusters, b: nat): nat
    requires ValidSlot(x, Block(b))
  {
    Div(SlotWord(x, d, Block(b)), x.h.ClusterSize())
  }

  predicate Under(r: Slot, s: Slot) { r.Table? && s.Data? && s.k == r.k && s.i == r.i }

  /** The write leaves every word alone that is stored elsewhere and whose table has not moved. */
  lemma WordWriteAt(x: Context, d: Clusters, r: Slot, w: u64, s: Slot)
    requires Whole(x.h.ClusterSize(), d) && ValidSlot(x, r) && Stored(x, d, r)
    requires Sole(x, d, Keeper(x, d, r), Home(x, d, r).0)
    requires ValidSlot(x, s) && s != r && Stored(x, d, s)
    ensures Word(At(WithWord(x, d, r, w), Home(x, d, s).0), Home(x, d, s).1) == SlotWord(x, d, s)
  {
    KeeperTouches(x, d, r);
    KeeperTouches(x, d, s);
    var (c, j) := Home(x, d, r);
    if Home(x, d, s).0 == c {
      assert Keeper(x, d, s) == Keeper(x, d, r);
      if Home(x, d, s).1 == j { HomeInjective(x, d, r, s); }
      WordPut(At(d, c), j, w, Home(x, d, s).1);
    }
  }

  lemma WordWriteOther(x: Context, d: Clusters, r: Slot, w: u64, s: Slot)
    requires Whole(x.h.ClusterSize(), d) && ValidSlot(x, r) && Stored(x, d, r)
    requires Sole(x, d, Keeper(x, d, r), Home(x, d, r).0)
    requires ValidSlot(x, s) && s != r && !Under(r, s)
    ensures SlotWord(x, WithWord(x, d, r, w), s) == SlotWord(x, d, s)
    decreases s.Data?
  {
    hide Word, WithWord, Mul, Div, Mod, HostOffset;
    if s.Data? { WordWriteOther(x, d, r, w, Table(s.k, s.i)); }
    if Stored(x, d, s) { WordWriteAt(x, d, r, w, s); }
  }

  lemma WordWriteSelf(x: Context, d: Clusters, r: Slot, w: u64)
    requires Whole(x.h.ClusterSize(), d) && ValidSlot(x, r) && Stored(x, d, r)
    requires Sole(x, d, Keeper(x, d, r), Home(x, d, r).0)
    ensures SlotWord(x, WithWord(x, d, r, w), r) == w
  {
    KeeperTouches(x, d, r);
    var (c, j) := Home(x, d, r);
    var d' := WithWord(x, d, r, w);
    assert Word(At(d', c), j) == w by { WordPut(At(d, c), j, w, j); }
    if r.Data? { WordWriteOther(x, d, r, w, Table(r.k, r.i)); }
    assert Home(x, d', r) == (c, j);
  }

  lemma WordWriteCount(x: Context, d: Clusters, r: Slot, w: u64, y: nat)
    requires Whole(x.h.ClusterSize(), d) && ValidSlot(x, r) && Stored(x, d, r)
    requires Sole(x, d, Keeper(x, d, r), Home(x, d, r).0)
    requires !(r.Block? && Div(y, EntriesPerBlock(x.h)) == r.b)
    ensures CountOf(x, WithWord(x, d, r, w), y) == CountOf(x, d, y)
  {
    hide Home, SlotWord, CountAt;
    var b := Div(y, EntriesPerBlock(x.h));
    if b < RootEntries(x) {
      WithWordAt(x, d, r, w, BlockCluster(x, d, b));
      KeeperTouches(x, d, r);
      WordWriteOther(x, d, r, w, Block(b));
      assert ValidSlot(x, Block(b)) && Keeper(x, d, r) != Block(b);
      assert !Touches(RefOf(x, d, Block(b)), Home(x, d, r).0);
    }
  }

  lemma WordWriteContent(x: Context, d: Clusters, r: Slot, w: u64, s: Slot)
    requires Whole(x.h.ClusterSize(), d) && ValidSlot(x, r) && Stored(x, d, r)
    requires Sole(x, d, Keeper(x, d, r), Home(x, d, r).0)
    requires ValidSlot(x, s) && s.Data? && SlotWord(x, WithWord(x, d, r, w), s) == SlotWord(x, d, s)
    ensures Content(x, WithWord(x, d, r, w), s) == Content(x, d, s)
  {
    KeeperTouches(x, d, r);
    ContentKept(x, d, WithWord(x, d, r, w), s);
  }

  /** Writing a table word changes that word, the words under it if it is an L1 entry, no refcount unless it is
      a refcount table entry, and no guest cluster whose own word stayed. */
  lemma WordWrite(x: Context, d: Clusters, r: Slot, w: u64)
    requires Whole(x.h.ClusterSize(), d) && ValidSlot(x, r) && Stored(x, d, r)
    requires Sole(x, d, Keeper(x, d, r), Home(x, d, r).0)
    ensures SlotWord(x, WithWord(x, d, r, w), r) == w
    ensures forall s :: ValidSlot(x, s) && s != r && !Under(r, s) ==>
              SlotWord(x, WithWord(x, d, r, w), s) == SlotWord(x, d, s)
    ensures forall y: nat :: !(r.Block? && Div(y, EntriesPerBlock(x.h)) == r.b) ==>
              CountOf(x, WithWord(x, d, r, w), y) == CountOf(x, d, y)
    ensures forall s :: ValidSlot(x, s) && s.Data? && SlotWord(x, WithWord(x, d, r, w), s) == SlotWord(x, d, s) ==>
              Content(x, WithWord(x, d, r, w), s) == Content(x, d, s)
  {
    var d' := WithWord(x, d, r, w);
    WordWriteSelf(x, d, r, w);
    forall s | ValidSlot(x, s) && s != r && !Under(r, s) ensures SlotWord(x, d', s) == SlotWord(x, d, s) {
      WordWriteOther(x, d, r, w, s);
    }
    forall y: nat | !(r.Block? && Div(y, EntriesPerBlock(x.h)) == r.b) ensures CountOf(x, d', y) == CountOf(x, d, y) {
      WordWriteCount(x, d, r, w, y);
    }
    forall s | ValidSlot(x, s) && s.Data? && SlotWord(x, d', s) == SlotWord(x, d, s)
      ensures Content(x, d', s) == Content(x, d, s)
    {
      WordWriteContent(x, d, r, w, s);
    }
  }

  // ---- one refcount ----

  ghost function WithCount(x: Context, d: Clusters, b: nat, e: nat, n: nat): (d': Clusters)
    requires Whole(x.h.ClusterSize(), d) && Wide16(x.h) && ValidSlot(x, Block(b)) && e < EntriesPerBlock(x.h)
    ensures Whole(x.h.ClusterSize(), d')
  {
    var c := BlockCluster(x, d, b);
    d[c := Put(At(d, c), 2 * e, Encode(n, 2))]
  }

  lemma CountPut(h: Header, block: seq<byte>, e: nat, n: nat, f: nat)
    requires Wide16(h) && |block| == h.ClusterSize() && e < EntriesPerBlock(h) && f < EntriesPerBlock(h) && n < 0x1_0000
    ensures CountAt(h, Put(block, 2 * e, Encode(n, 2)), f) == if f == e then n else CountAt(h, block, f)
  {
    Pow256Values();
    var p := Put(block, 2 * e, Encode(n, 2));
    if f == e {
      assert p[2 * e..2 * e + 2] == Encode(n, 2);
    } else {
      assert p[2 * f..2 * f + 2] == block[2 * f..2 * f + 2];
    }
  }

  /** Writing one entry of a refcount block changes that refcount and nothing else. */
  lemma CountWrite(x: Context, d: Clusters, b: nat, e: nat, n: nat)
    requires Whole(x.h.ClusterSize(), d) && Wide16(x.h) && ValidSlot(x, Block(b)) && e < EntriesPerBlock(x.h)
    requires SlotWord(x, d, Block(b)) != 0 && n < 0x1_0000
    requires Sole(x, d, Block(b), BlockCluster(x, d, b))
    ensures SameWords(x, d, WithCount(x, d, b, e, n))
    ensures forall y: nat :: CountOf(x, WithCount(x, d, b, e, n), y)
                          == if y == EntryCluster(x.h, b, e) then n else CountOf(x, d, y)
    ensures forall s :: ValidSlot(x, s) && s.Data? ==> Content(x, WithCount(x, d, b, e, n), s) == Content(x, d, s)
  {
    var d' := WithCount(x, d, b, e, n);
    forall r | ValidSlot(x, r) ensures SlotWord(x, d', r) == SlotWord(x, d, r) {
      CountWriteWord(x, d, b, e, n, r);
    }
    forall y: nat
      ensures CountOf(x, d', y) == if y == EntryCluster(x.h, b, e) then n else CountOf(x, d, y)
    {
      CountWriteOne(x, d, b, e, n, y);
    }
    forall s | ValidSlot(x, s) && s.Data? ensures Content(x, d', s) == Content(x, d, s) {
      ContentKept(x, d, d', s);
    }
  }

  lemma CountWriteWord(x: Context, d: Clusters, b: nat, e: nat, n: nat, r: Slot)
    requires Whole(x.h.ClusterSize(), d) && Wide16(x.h) && ValidSlot(x, Block(b)) && e < EntriesPerBlock(x.h)
    requires Sole(x, d, Block(b), BlockCluster(x, d, b)) && ValidSlot(x, r)
    ensures SlotWord(x, WithCount(x, d, b, e, n), r) == SlotWord(x, d, r)
    decreases r.Data?
  {
    hide CountAt, EntriesPerBlock, Word;
    if r.Data? { CountWriteWord(x, d, b, e, n, Table(r.k, r.i)); }
    if Stored(x, d, r) { KeeperTouches(x, d, r); }
  }

  lemma CountWriteOne(x: Context, d: Clusters, b: nat, e: nat, n: nat, y: nat)
    requires Whole(x.h.ClusterSize(), d) && Wide16(x.h) && ValidSlot(x, Block(b)) && e < EntriesPerBlock(x.h)
    requires SlotWord(x, d, Block(b)) != 0 && n < 0x1_0000
    requires Sole(x, d, Block(b), BlockCluster(x, d, b))
    ensures CountOf(x, WithCount(x, d, b, e, n), y)
         == if y == EntryCluster(x.h, b, e) then n else CountOf(x, d, y)
  {
    var yb, ye := Div(y, EntriesPerBlock(x.h)), Mod(y, EntriesPerBlock(x.h));
    EntryInverse(x.h, b, e, y);
    if yb < RootEntries(x) {
      CountWriteWord(x, d, b, e, n, Block(yb));
      if yb == b {
        CountPut(x.h, At(d, BlockCluster(x, d, b)), e, n, ye);
      } else {
        assert ValidSlot(x, Block(yb));
        assert SlotWord(x, d, Block(yb)) != 0 ==> !Touches(RefOf(x, d, Block(yb)), BlockCluster(x, d, b));
      }
    }
  }

  // ---- a new refcount block ----

  lemma FreshCounts(h: Header, e: nat)
    requires Wide16(h) && e < EntriesPerBlock(h)
    ensures CountAt(h, FreshBlock(h.ClusterSize()), e) == if e <= 1 then 1 else 0
  {
    Pow256Values();
    var block := FreshBlock(h.ClusterSize());
    if e == 0 {
      assert block[0..2] == Encode(1, 2);
    } else if e == 1 {
      assert block[2..4] == Encode(1, 2);
    } else {
      DecodeZeros(block[2 * e..2 * e + 2]);
    }
  }

  /** Publishing a fresh block gives its own range two refcounts of one and leaves every other at what it was. */
  lemma RootWrite(x: Context, d: Clusters, b: nat, w: u64, y: nat)
    requires Whole(x.h.ClusterSize(), d) && Wide16(x.h) && ValidSlot(x, Block(b)) && SlotWord(x, d, Block(b)) == 0
    requires Sole(x, d, Keeper(x, d, Block(b)), Home(x, d, Block(b)).0)
    requires w != 0 && At(d, Div(w, x.h.ClusterSize())) == FreshBlock(x.h.ClusterSize())
    requires Home(x, d, Block(b)).0 != Div(w, x.h.ClusterSize())
    ensures CountOf(x, WithWord(x, d, Block(b), w), y)
         == if y == EntryCluster(x.h, b, 0) || y == EntryCluster(x.h, b, 1) then 1 else CountOf(x, d, y)
  {
    var epb := EntriesPerBlock(x.h);
    EntryInverse(x.h, b, 0, y);
    EntryInverse(x.h, b, 1, y);
    if Div(y, epb) == b {
      WordWriteSelf(x, d, Block(b), w);
      FreshCounts(x.h, Mod(y, epb));
      assert At(WithWord(x, d, Block(b), w), Div(w, x.h.ClusterSize())) == FreshBlock(x.h.ClusterSize());
      assert CountOf(x, WithWord(x, d, Block(b), w), y) == CountAt(x.h, FreshBlock(x.h.ClusterSize()), Mod(y, epb));
    } else {
      WordWriteCount(x, d, Block(b), w, y);
    }
  }
}
