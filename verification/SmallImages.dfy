/** Images small enough to write down: 512-byte clusters, one L1 entry, one refcount block. */
module SmallImages {
  import opened Bytes
  import opened Arith
  import opened Format
  import opened Accounting
  import opened Disk
  import opened Images
  import opened Engine
  import opened Safety
  import opened Allocator
  import opened Chunks
  import opened Spans
  import opened Opening
  import opened Structures
  import opened Building
  import opened Runs
  import opened Refusals
  import opened Writes

  /** Version 3, 512-byte clusters, a 4096-byte disk, one L1 entry, one cluster of refcount table. */
  function SmallHeader(l1: nat, root: nat, snapshots: nat, snapshotTable: nat): Header
    requires l1 < 100 && root < 100 && snapshots < 100 && snapshotTable < 100
  {
    Header(3, 9, 4096, 0, 1, 512 * l1, 512 * root, 1, snapshots, 512 * snapshotTable, 0, 0, 0, 0, 0, 4, 104, 0)
  }

  lemma Multiple(k: nat)
    ensures Mul(k, 512) == 512 * k && Div(512 * k, 512) == k && Mod(512 * k, 512) == 0
  {
    MulIsProduct(k, 512);
    DivModUnique(512 * k, 512, k, 0);
  }

  lemma Below(v: nat, d: nat)
    requires v < d
    ensures Div(v, d) == 0 && Mod(v, d) == v
  {}

  lemma SmallGeometry(l1: nat, root: nat, snapshots: nat, snapshotTable: nat)
    requires l1 < 100 && root < 100 && snapshots < 100 && snapshotTable < 100
    ensures var h := SmallHeader(l1, root, snapshots, snapshotTable);
            && h.ClusterSize() == 512 && h.L2Entries() == 64 && EntriesPerBlock(h) == 256 && Wide16(h)
            && RefcountBits(h) == 16 && Mul(1, 64) == 64 && CeilDiv(1, 64) == 1 && Mul(1, 512) == 512
            && Div(h.l1TableOffset, 512) == l1 && Div(h.refcountTableOffset, 512) == root
            && Div(h.snapshotsOffset, 512) == snapshotTable
            && PlainHeader(h) && HeaderLength(h) == 104 && Addressable(h)
            && CheckSupported(h).Ok? && CheckWritable(h).Ok?
  {
    Pow2Values();
    assert Pow2(4) == 16;
    Multiple(l1);
    Multiple(root);
    Multiple(snapshotTable);
    MulOne(64);
    MulOne(512);
    DivModUnique(64, 64, 1, 0);
    MulIsProduct(512, 64);
    MulOne(512 * 64);
    DivModUnique(4096 + 512 * 64 - 1, 512 * 64, 1, 4095);
    NoFeatures(SmallHeader(l1, root, snapshots, snapshotTable));
  }

  lemma NoFeatures(h: Header)
    requires h.incompatibleFeatures == 0 && h.cryptMethod == 0 && h.compressionType == 0
    ensures CheckSupported(h).Ok? && CheckWritable(h).Ok?
  {
    forall bit: nat ensures !Feature(h, bit) {
      Below(0, Pow2(bit));
      Below(0, 2);
    }
  }

  /** A context whose header is small. */
  ghost predicate Small(x: Context, l1: nat, root: nat, table: nat) {
    && l1 < 100 && root < 100 && table < 100 && |x.snapshots| < 100
    && x.h == SmallHeader(l1, root, |x.snapshots|, table)
  }

  lemma SmallSizes(x: Context, l1: nat, root: nat, table: nat)
    requires Small(x, l1, root, table)
    ensures x.h.ClusterSize() == 512 && x.h.L2Entries() == 64 && EntriesPerBlock(x.h) == 256 && Wide16(x.h)
    ensures RefcountBits(x.h) == 16 && RootEntries(x) == 64 && RootCluster(x) == root && L1(x, 0) == L1Table(l1, 1)
    ensures FixedFirst(x, 2) == table && Addressable(x.h) && Mul(1, 512) == 512 && CeilDiv(1, 64) == 1
  {
    hide Mul, Div, Mod;
    SmallGeometry(l1, root, |x.snapshots|, table);
  }

  lemma WordIsField(t: seq<byte>, j: nat)
    ensures Word(t, j) == Field(t, 8 * j, 8)
  {}

  lemma BlockWord(x: Context, d: Clusters, l1: nat, root: nat, table: nat, b: nat)
    requires Small(x, l1, root, table) && b < 64 && ValidSlot(x, Block(b))
    ensures SlotWord(x, d, Block(b)) == Field(At(d, root), 8 * b, 8)
  {
    hide Mul, Div, Mod, Word, Field, SmallHeader, RootCluster, RootEntries;
    SmallSizes(x, l1, root, table);
    Below(b, 64);
    WordIsField(At(d, root), b);
    assert Home(x, d, Block(b)) == (root, b);
  }

  lemma TableWord(x: Context, d: Clusters, l1: nat, root: nat, table: nat, k: nat)
    requires Small(x, l1, root, table) && k <= |x.snapshots| && ValidSlot(x, Table(k, 0))
    ensures SlotWord(x, d, Table(k, 0)) == Field(At(d, L1(x, k).cluster), 0, 8)
  {
    hide Mul, Div, Mod, Word, Field, SmallHeader, RootCluster, L1;
    SmallSizes(x, l1, root, table);
    Below(0, 64);
    WordIsField(At(d, L1(x, k).cluster), 0);
    assert Home(x, d, Table(k, 0)) == (L1(x, k).cluster, 0);
  }

  lemma DataWord(x: Context, d: Clusters, l1: nat, root: nat, table: nat, k: nat, j: nat)
    requires Small(x, l1, root, table) && ValidSlot(x, Table(k, 0)) && ValidSlot(x, Data(k, 0, j))
    ensures var t := HostOffset(SlotWord(x, d, Table(k, 0)));
            SlotWord(x, d, Data(k, 0, j)) == if t == 0 then 0 else Field(At(d, Div(t, 512)), 8 * j, 8)
  {
    hide Mul, Div, Mod, Word, Field, SmallHeader, HostOffset;
    SmallSizes(x, l1, root, table);
    var t := HostOffset(SlotWord(x, d, Table(k, 0)));
    WordIsField(At(d, Div(t, 512)), j);
    assert Home(x, d, Data(k, 0, j)) == (Div(t, 512), j);
  }

  /** With one refcount block, in cluster block, the counts are its entries. */
  lemma Counts(x: Context, d: Clusters, l1: nat, root: nat, table: nat, block: nat, c: nat)
    requires Small(x, l1, root, table) && Field(At(d, root), 0, 8) == 512 * block > 0
    requires forall b | 1 <= b < 64 :: Field(At(d, root), 8 * b, 8) == 0
    ensures CountOf(x, d, c) == if c < 256 then Field(At(d, block), 2 * c, 2) else 0
  {
    hide Mul, Div, Mod, SlotWord, SmallHeader, RootEntries, Decode;
    SmallSizes(x, l1, root, table);
    var b := Div(c, 256);
    if b < 64 { BlockWord(x, d, l1, root, table, b); }
    if c < 256 {
      Below(c, 256);
      Multiple(block);
    } else {
      DivMod(c, 256);
      if b == 0 { Nothing(256); }
    }
  }

  lemma Nothing(d: nat)
    ensures Mul(0, d) == 0
  {}

  function HeaderCluster(h: Header): seq<byte> { EncodeHeader(h) + Zeros(408) }

  lemma HeaderThere(h: Header, cluster: seq<byte>)
    requires PlainHeader(h) && HeaderLength(h) == 104 && cluster == HeaderCluster(h)
    ensures |cluster| == 512 && ParseHeader(Slice(cluster, 0, 112)) == Ok(h)
  {
    hide ParseHeader, EncodeHeader;
    HeaderRoundTrip(h, Zeros(8));
    assert cluster[0..112] == EncodeHeader(h) + Zeros(8);
  }

  /** What an image is once it is open, with no backing file. */
  ghost predicate OpensTo(x: Context, m: seq<byte>, st: State) {
    && OpenImage(Image(m, x.codec, 0x10_0000), true) == Ok(st.core)
    && st == State(st.core, [], [Cache(None, None)])
    && Paired(st) && StateOK(x, st) && Describes(x, D(st.core), true)
  }

  lemma Opens(x: Context, m: seq<byte>) returns (st: State)
    requires Addressable(x.h) && WellFormed(x, Cl(x.h, m), |m|) && |m| <= 0x10_0000
    requires Describes(x, Cl(x.h, m), true) && forall v: nat :: x.under(v) == Some(0)
    ensures OpensTo(x, m, st) && D(st.core) == Cl(x.h, m)
  {
    hide WellFormed, Describes, Cl, OpenImage, MemoryOK;
    OpenOK(x, 0x10_0000, m, true);
    var c := OpenImage(Image(m, x.codec, 0x10_0000), true).value;
    st := State(c, [], [Cache(None, None)]);
    EmptyState(x, st);
  }

  lemma EmptyState(x: Context, st: State)
    requires CoreOK(x, st.core) && st.parents == [] && st.caches == [Cache(None, None)]
    requires forall v: nat :: x.under(v) == Some(0)
    ensures StateOK(x, st)
  {
    hide WellFormed, MemoryOK, Cl;
  }

  // ---- where the bytes are, and room for two clusters ----

  lemma SmallSlot(x: Context, l1: nat, root: nat, table: nat, j: nat)
    requires Small(x, l1, root, table) && j < 8
    ensures ValidSlot(x, Data(0, 0, j)) && SlotOf(x.h, 512 * j) == Data(0, 0, j) && Base(x.h, Data(0, 0, j)) == 512 * j
    ensures Mod(512 * j, 512) == 0 && x.h.virtualSize == 4096 && x.h.ClusterSize() == 512 && Wide16(x.h)
  {
    hide Mul, Div, Mod;
    SmallSizes(x, l1, root, table);
    Multiple(j);
    Below(j, 64);
    Nothing(64);
  }

  lemma RoomAt(x: Context, c: Core, l1: nat, root: nat, table: nat, y: nat)
    requires Small(x, l1, root, table) && c.h == x.h && c.cap == 0x10_0000 && y < 256
    requires ValidSlot(x, Block(0)) && SlotWord(x, D(c), Block(0)) != 0 && CountOf(x, D(c), y) == 0
    ensures Spare(x, c, y)
  {
    hide Mul, Div, Mod, SmallHeader, SlotWord, CountOf, D, RootEntries;
    SmallSizes(x, l1, root, table);
    Below(y, 256);
    Multiple(y);
  }

  /** Deflate output of a whole cluster, or more, for any payload. */
  ghost predicate Inflates(codec: Codec) { forall p :: |codec.inflate(p)| >= 512 }

  lemma Readable(x: Context, d: Clusters, v: nat, w: nat)
    requires x.h.ClusterSize() == 512 && Whole(512, d) && x.h.compressionType == 0
    requires (forall p: nat :: x.under(p) == Some(0)) && (Compressed(w) ==> Inflates(x.codec))
    ensures !Unknown(ContentOf(x, d, v, w))
  {
    hide Mul, Div, Compressed, ZeroFlag, HostOffset, DecodeDescriptor, Payload;
    forall o | 0 <= o < 512 ensures ContentOf(x, d, v, w)[o] != None {
      if Compressed(w) {
        var (off, span) := DecodeDescriptor(w, x.h.clusterBits);
        assert Unpack(x.h, x.codec, Payload(512, d, off, span)).Ok?;
      } else if !(x.h.version >= 3 && ZeroFlag(w)) && HostOffset(w) == 0 {
        assert ContentOf(x, d, v, w)[o] == x.under(Mul(v, 512) + o);
      }
    }
  }
}
