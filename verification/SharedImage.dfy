/** An image with one snapshot. The active L1 table and the snapshot's name the same L2 table, and so the same plain
    cluster, the same zero-flagged entry that kept its host cluster, and the same compressed payload across two host
    clusters. Every refcount is exactly the number of references. */
module SharedImage {
  import opened Bytes
  import opened Arith
  import opened Format
  import opened Accounting
  import opened Disk
  import opened Images
  import opened Engine
  import opened Safety
  import opened Chunks
  import opened Leaks
  import opened Structures
  import opened Building
  import opened SmallImages

  function SharedHeader(): Header { SmallHeader(1, 2, 1, 7) }

  ghost function Shared(codec: Codec): Context {
    Context(SharedHeader(), [L1Table(6, 1)], 1, codec, (v: nat) => Some(0))
  }

  /** 600 bytes at offset 4864: from the middle of cluster 9 into cluster 10. */
  function PackedEntry(): (e: u64)
    ensures Compressed(e) && DecodeDescriptor(e, 9) == (4864, 768)
  {
    Pow2Values();
    DescriptorSplit(9);
    Pow2Mono(61, 62);
    assert DescriptorFits(4864, 600, 9);
    DescriptorRoundTrip(4864, 600, 9);
    MulOne(Pow2(61));
    EncodeDescriptor(4864, 600, 9)
  }

  function L2Values(): seq<nat> { [2560, 4097, PackedEntry()] }

  function CountValues(): seq<nat> { [1, 1, 1, 1, 2, 2, 1, 1, 2, 2, 2] }

  /** One snapshot: its L1 table at 3072, of one entry, and an id of one byte. */
  function SnapshotFields(): seq<(nat, nat)> {
    [(3072, 8), (1, 4), (1, 2), (0, 2), (0, 4), (0, 4), (0, 8), (0, 4), (0, 4), (49, 1)]
  }

  function SharedParts(): seq<seq<byte>> {
    [HeaderCluster(SharedHeader()), Filled([2048], 8, 512), Filled([1536], 8, 512), Filled(CountValues(), 2, 512),
     Filled(L2Values(), 8, 512), Zeros(512), Filled([2048], 8, 512), Pack(SnapshotFields()) + Zeros(471), Zeros(512),
     Zeros(512), Zeros(512)]
  }

  function SharedBytes(): seq<byte> { Join(SharedParts()) + [] }

  ghost function SharedDisk(): Clusters { ClustersOf(512, SharedBytes()) }

  lemma SnapshotOffsets()
    ensures var f := SnapshotFields();
            Offset(f, 0) == 0 && Offset(f, 1) == 8 && Offset(f, 2) == 12 && Offset(f, 3) == 14 && Offset(f, 8) == 36
            && Offset(f, 10) == 41
  {
    hide Offset;
    var f := SnapshotFields();
    FirstOffset(f);
    OffsetNext(f, 0);
    OffsetNext(f, 1);
    OffsetNext(f, 2);
    OffsetNext(f, 3);
    OffsetNext(f, 4);
    OffsetNext(f, 5);
    OffsetNext(f, 6);
    OffsetNext(f, 7);
    OffsetNext(f, 8);
    OffsetNext(f, 9);
  }

  lemma TableSizes()
    ensures |Filled([2048], 8, 512)| == 512 && |Filled([1536], 8, 512)| == 512
    ensures |Filled(CountValues(), 2, 512)| == 512 && |Filled(L2Values(), 8, 512)| == 512
  {
    hide Filled, PackedEntry;
    MulIsProduct(1, 8);
    MulIsProduct(3, 8);
    MulIsProduct(11, 2);
    FilledLength([2048], 8, 512);
    FilledLength([1536], 8, 512);
    FilledLength(CountValues(), 2, 512);
    FilledLength(L2Values(), 8, 512);
  }

  lemma OtherSizes()
    ensures |HeaderCluster(SharedHeader())| == 512 && |Pack(SnapshotFields())| == 41
  {
    hide HeaderCluster, Pack, Offset;
    HeaderSize();
    SnapshotOffsets();
    PackLength(SnapshotFields());
  }

  lemma HeaderSize()
    ensures |HeaderCluster(SharedHeader())| == 512
  {
    hide HeaderCluster, SmallHeader, ParseHeader;
    SmallGeometry(1, 2, 1, 7);
    HeaderThere(SharedHeader(), HeaderCluster(SharedHeader()));
  }

  lemma SharedSizes()
    ensures AllSized(512, SharedParts()) && |SharedParts()| == 11
  {
    hide Filled, HeaderCluster, Pack, L2Values, CountValues, SnapshotFields, SharedHeader;
    TableSizes();
    OtherSizes();
  }

  lemma SharedPart(k: nat)
    requires k < 11
    ensures |SharedBytes()| == 5632 && At(SharedDisk(), k) == SharedParts()[k]
  {
    hide Join, SharedParts, Mul;
    SharedSizes();
    MulIsProduct(11, 512);
    JoinLength(512, SharedParts());
    JoinCluster(512, SharedParts(), [], k);
  }

  // ---- fields of the clusters ----

  lemma RootField(b: nat)
    requires b < 64
    ensures Field(At(SharedDisk(), 2), 8 * b, 8) == if b == 0 then 1536 else 0
  {
    hide Filled, SharedDisk, Field, HeaderCluster, SharedHeader, Pack, L2Values, CountValues, SnapshotFields;
    SharedPart(2);
    Pow256Values();
    MulIsProduct(1, 8);
    MulIsProduct(b, 8);
    FilledEntry([1536], 8, 512, b);
  }

  lemma L1Field(k: nat)
    requires k == 1 || k == 6
    ensures Field(At(SharedDisk(), k), 0, 8) == 2048
  {
    hide Filled, SharedDisk, Field, HeaderCluster, SharedHeader, Pack, L2Values, CountValues, SnapshotFields;
    SharedPart(k);
    Pow256Values();
    MulIsProduct(1, 8);
    MulIsProduct(0, 8);
    FilledEntry([2048], 8, 512, 0);
  }

  lemma L2Field(j: nat)
    requires j < 64
    ensures Field(At(SharedDisk(), 4), 8 * j, 8)
         == if j == 0 then 2560 else if j == 1 then 4097 else if j == 2 then PackedEntry() else 0
  {
    hide Filled, SharedDisk, Field, HeaderCluster, SharedHeader, Pack, PackedEntry, CountValues, SnapshotFields;
    SharedPart(4);
    Pow256Values();
    MulIsProduct(3, 8);
    MulIsProduct(j, 8);
    FilledEntry(L2Values(), 8, 512, j);
  }

  lemma CountField(c: nat)
    requires c < 256
    ensures Field(At(SharedDisk(), 3), 2 * c, 2) == if c < 11 then CountValues()[c] else 0
  {
    hide Filled, SharedDisk, Field, HeaderCluster, SharedHeader, Pack, L2Values, SnapshotFields;
    SharedPart(3);
    Pow256Values();
    MulIsProduct(11, 2);
    MulIsProduct(c, 2);
    FilledEntry(CountValues(), 2, 512, c);
  }

  // ---- words, counts, references ----

  lemma Numbers()
    ensures HostOffset(2048) == 2048 && !Copied(2048) && !L1ReservedBits(2048) && Div(2048, 512) == 4
    ensures HostOffset(2560) == 2560 && !Copied(2560) && !Compressed(2560) && !ZeroFlag(2560) && Div(2560, 512) == 5
    ensures HostOffset(4097) == 4096 && !Copied(4097) && !Compressed(4097) && ZeroFlag(4097) && Div(4096, 512) == 8
    ensures !L2ReservedBits(3, 2560) && !L2ReservedBits(3, 4097) && Mod(2560, 512) == 0 && Mod(2048, 512) == 0
    ensures Div(1536, 512) == 3 && Mod(1536, 512) == 0 && Div(4864, 512) == 9 && Div(4864 + 768 - 1, 512) == 10
  {
    hide HostOffset, Compressed, L1ReservedBits, L2ReservedBits, ZeroFlag, Div, Mod;
    Quotients(2048);
    Quotients(2560);
    Quotients(4097);
    DivIsQuotient(2048, 512);
    DivIsQuotient(2560, 512);
    DivIsQuotient(4096, 512);
    DivIsQuotient(1536, 512);
    DivIsQuotient(4864, 512);
    DivIsQuotient(5631, 512);
    assert ZeroFlag(2560) <==> Mod(2560, 2) == 1 by { ZeroFlagMeans(2560); }
    assert ZeroFlag(4097) <==> Mod(4097, 2) == 1 by { ZeroFlagMeans(4097); }
  }

  lemma ZeroFlagMeans(e: nat)
    ensures ZeroFlag(e) <==> Mod(e, 2) == 1
  {}

  function SharedValue(r: Slot): nat {
    match r
    case Fixed(_, _) => 0
    case Block(b) => if b == 0 then 1536 else 0
    case Table(_, _) => 2048
    case Data(_, _, j) => if j < 3 then L2Values()[j] else 0
  }

  lemma TablesNamed(codec: Codec)
    ensures Small(Shared(codec), 1, 2, 7) && L1(Shared(codec), 1).cluster == 6
  {
    hide SmallHeader;
  }

  lemma SharedTable(codec: Codec, k: nat)
    requires ValidSlot(Shared(codec), Table(k, 0))
    ensures SlotWord(Shared(codec), SharedDisk(), Table(k, 0)) == 2048
  {
    hide Mul, Div, Mod, SharedDisk, Field, SmallHeader, SlotWord;
    TablesNamed(codec);
    SmallSizes(Shared(codec), 1, 2, 7);
    L1Field(1);
    L1Field(6);
    TableWord(Shared(codec), SharedDisk(), 1, 2, 7, k);
  }

  lemma SharedWord(codec: Codec, r: Slot)
    requires ValidSlot(Shared(codec), r)
    ensures SlotWord(Shared(codec), SharedDisk(), r) == SharedValue(r)
  {
    hide Mul, Div, Mod, SharedDisk, Field, SmallHeader, SlotWord, HostOffset, PackedEntry;
    var x := Shared(codec);
    TablesNamed(codec);
    SmallSizes(x, 1, 2, 7);
    Numbers();
    match r
    case Fixed(_, _) => FixedIsZero(x, SharedDisk(), r);
    case Block(b) =>
      RootField(b);
      BlockWord(x, SharedDisk(), 1, 2, 7, b);
    case Table(k, _) => SharedTable(codec, k);
    case Data(k, _, j) =>
      SharedTable(codec, k);
      L2Field(j);
      DataWord(x, SharedDisk(), 1, 2, 7, k, j);
  }

  lemma FixedIsZero(x: Context, d: Clusters, r: Slot)
    requires ValidSlot(x, r) && r.Fixed?
    ensures SlotWord(x, d, r) == 0
  {}

  lemma SharedCount(codec: Codec, c: nat)
    ensures CountOf(Shared(codec), SharedDisk(), c) == if c < 11 then CountValues()[c] else 0
  {
    hide SharedDisk, Field, CountOf, SmallHeader;
    TablesNamed(codec);
    RootField(0);
    forall b | 1 <= b < 64 ensures Field(At(SharedDisk(), 2), 8 * b, 8) == 0 { RootField(b); }
    if c < 256 { CountField(c); }
    Counts(Shared(codec), SharedDisk(), 1, 2, 7, 3, c);
  }

  function SharedRef(r: Slot): Ref {
    match r
    case Fixed(_, c) => One(c, false)
    case Block(b) => if b == 0 then One(3, false) else Nil
    case Table(_, _) => One(4, false)
    case Data(_, _, j) =>
      if j == 0 then One(5, false) else if j == 1 then One(8, false) else if j == 2 then Span(9, 10) else Nil
  }

  lemma SharedRefs(codec: Codec, r: Slot)
    requires ValidSlot(Shared(codec), r)
    ensures RefOf(Shared(codec), SharedDisk(), r) == SharedRef(r)
  {
    hide Mul, Div, Mod, SharedDisk, SlotWord, SmallHeader, HostOffset, Compressed, Copied, ZeroFlag, PackedEntry,
      DecodeDescriptor;
    TablesNamed(codec);
    SmallSizes(Shared(codec), 1, 2, 7);
    SharedWord(codec, r);
    Numbers();
    ZeroWord();
  }

  lemma OneRootCluster(codec: Codec)
    ensures Shared(codec).h.refcountTableClusters == 1
  {}

  lemma SharedShape(codec: Codec, r: Slot)
    requires ValidSlot(Shared(codec), r)
    ensures r.Fixed? ==> r in {Fixed(0, 0), Fixed(1, 2), Fixed(2, 7), Fixed(3, 1), Fixed(4, 6)}
    ensures r.Table? ==> r in {Table(0, 0), Table(1, 0)}
    ensures r.Data? ==> r.i == 0 && r.k <= 1
  {
    hide Mul, Div, Mod, SmallHeader;
    TablesNamed(codec);
    SmallSizes(Shared(codec), 1, 2, 7);
    OneRootCluster(codec);
  }

  lemma SharedSlots(codec: Codec)
    ensures var x := Shared(codec);
            && ValidSlot(x, Fixed(0, 0)) && ValidSlot(x, Fixed(1, 2)) && ValidSlot(x, Fixed(2, 7))
            && ValidSlot(x, Fixed(3, 1)) && ValidSlot(x, Fixed(4, 6)) && ValidSlot(x, Block(0))
            && (forall k: nat | k <= 1 :: ValidSlot(x, Table(k, 0)))
            && forall k: nat, j: nat | k <= 1 && j < 64 :: ValidSlot(x, Data(k, 0, j))
  {
    hide Mul, Div, Mod, SmallHeader;
    TablesNamed(codec);
    SmallSizes(Shared(codec), 1, 2, 7);
    OneRootCluster(codec);
  }

  function Owners(c: nat): set<Slot> {
    if c == 0 then {Fixed(0, 0)} else if c == 1 then {Fixed(3, 1)} else if c == 2 then {Fixed(1, 2)}
    else if c == 3 then {Block(0)} else if c == 4 then {Table(0, 0), Table(1, 0)}
    else if c == 5 then {Data(0, 0, 0), Data(1, 0, 0)} else if c == 6 then {Fixed(4, 6)}
    else if c == 7 then {Fixed(2, 7)} else if c == 8 then {Data(0, 0, 1), Data(1, 0, 1)}
    else if c == 9 || c == 10 then {Data(0, 0, 2), Data(1, 0, 2)} else {}
  }

  lemma OwnersTouch(codec: Codec, r: Slot, c: nat)
    requires ValidSlot(Shared(codec), r)
    ensures Touches(SharedRef(r), c) <==> r in Owners(c)
  {
    hide ValidSlot;
    SharedShape(codec, r);
  }

  lemma OwnersValid(codec: Codec, r: Slot, c: nat)
    requires r in Owners(c)
    ensures ValidSlot(Shared(codec), r)
  {
    hide ValidSlot;
    SharedSlots(codec);
  }

  /** The users of every cluster, and exactly as many counts. */
  lemma SharedUsers(codec: Codec, c: nat)
    ensures var m := MetaOf(Shared(codec), SharedDisk());
            Users(m, c) == Owners(c) && Count(m, c) == |Owners(c)|
  {
    hide SharedDisk, ValidSlot, RefOf, CountOf, Owners, SharedRef, Shared;
    var m := MetaOf(Shared(codec), SharedDisk());
    forall r ensures r in Users(m, c) <==> r in Owners(c) {
      if r in m.refs {
        SharedRefs(codec, r);
        OwnersTouch(codec, r, c);
      } else if r in Owners(c) {
        OwnersValid(codec, r, c);
      }
    }
    SharedCount(codec, c);
    OwnersCounted(c);
  }

  lemma OwnersCounted(c: nat)
    ensures |Owners(c)| == if c < 11 then CountValues()[c] else 0
  {}

  lemma SharedInv(codec: Codec)
    ensures Inv(MetaOf(Shared(codec), SharedDisk())) && Balanced(Shared(codec), SharedDisk())
  {
    hide SharedDisk, ValidSlot, RefOf, CountOf, SharedRef, Owners, Shared;
    var m := MetaOf(Shared(codec), SharedDisk());
    forall c: nat ensures Count(m, c) == |Users(m, c)| { SharedUsers(codec, c); }
    forall r, s, c: nat {:trigger Touches(m.refs[r], c), Touches(m.refs[s], c)}
      | r in m.refs && s in m.refs && Owned(r) && Touches(m.refs[r], c) && Touches(m.refs[s], c)
      ensures r == s
    {
      SharedUsers(codec, c);
      assert r in Users(m, c) && s in Users(m, c);
      OwnedOnce(r, s, c);
    }
    forall r | r in m.refs ensures !CopiedRef(m.refs[r]) {
      SharedRefs(codec, r);
      NeverCopied(r);
    }
  }

  lemma OwnedOnce(r: Slot, s: Slot, c: nat)
    requires r in Owners(c) && s in Owners(c) && Owned(r)
    ensures r == s
  {}

  lemma NeverCopied(r: Slot)
    ensures !CopiedRef(SharedRef(r))
  {}

  // ---- the image opens ----

  lemma SharedEnd(codec: Codec)
    ensures var h := Shared(codec).h; h.l1TableOffset + 8 * h.l1Size == 520 && h.version == 3 && h.clusterBits == 9
  {}

  lemma LegalEntry(codec: Codec, j: nat)
    ensures Classify(Shared(codec).h, 5632, false, if j < 3 then L2Values()[j] else 0).Ok?
  {
    hide Mul, Div, Mod, SmallHeader, HostOffset, Compressed, Copied, ZeroFlag, L2ReservedBits, PackedEntry,
      DecodeDescriptor;
    TablesNamed(codec);
    SmallSizes(Shared(codec), 1, 2, 7);
    SharedEnd(codec);
    Numbers();
    ZeroWord();
  }

  lemma SharedLegal(codec: Codec)
    ensures Legal(Shared(codec), SharedDisk(), 5632)
  {
    hide Mul, Div, Mod, SharedDisk, SlotWord, SmallHeader, HostOffset, L1ReservedBits, L2Values, Classify, ValidSlot;
    var x := Shared(codec);
    TablesNamed(codec);
    SmallSizes(x, 1, 2, 7);
    SharedEnd(codec);
    forall r | ValidSlot(x, r) ensures LegalWord(x.h, r, SlotWord(x, SharedDisk(), r), 5632) {
      SharedWord(codec, r);
      SharedShape(codec, r);
      Nothing(512);
      Multiple(2);
      Numbers();
      if r.Data? { LegalEntry(codec, r.j); }
    }
  }

  lemma OneSnapshot(cs: nat, t: seq<byte>)
    requires cs > 0 && Mod(Field(t, 0, 8), cs) == 0
    requires 40 + Field(t, 36, 4) + Field(t, 12, 2) + Field(t, 14, 2) <= |t|
    ensures ListSnapshots(cs, t, 0, 1) == Some([L1Table(Div(Field(t, 0, 8), cs), Field(t, 8, 4))])
  {
    hide Field, Mod, Div;
    var entry := L1Table(Div(Field(t, 0, 8), cs), Field(t, 8, 4));
    var end := 40 + Field(t, 36, 4) + Field(t, 12, 2) + Field(t, 14, 2);
    assert ListSnapshots(cs, t, (end + 7) / 8 * 8, 0) == Some([]);
    assert [entry] + [] == [entry];
  }

  lemma SharedList(codec: Codec)
    ensures ListSnapshots(512, Pack(SnapshotFields()) + Zeros(471), 0, 1) == Some([L1Table(6, 1)])
  {
    hide Pack, Offset, Field, Mul, Div, Mod;
    var f, pad := SnapshotFields(), Zeros(471);
    SnapshotOffsets();
    PackLength(f);
    Pow256Values();
    FieldPacked(f, pad, 0);
    FieldPacked(f, pad, 1);
    FieldPacked(f, pad, 2);
    FieldPacked(f, pad, 3);
    FieldPacked(f, pad, 8);
    Multiple(6);
    var t := Pack(f) + pad;
    assert Field(t, 0, 8) == 3072 && Field(t, 8, 4) == 1 && Field(t, 12, 2) == 1;
    assert Field(t, 14, 2) == 0 && Field(t, 36, 4) == 0;
    assert |t| == 512;
    OneSnapshot(512, t);
  }

  lemma SharedTableBytes(codec: Codec)
    ensures TableBytes(Shared(codec), SharedDisk()) == Pack(SnapshotFields()) + Zeros(471)
  {
    hide SharedDisk, Mul, Div, Mod, Pack, SmallHeader, SharedParts;
    var x, t := Shared(codec), TableBytes(Shared(codec), SharedDisk());
    TablesNamed(codec);
    SmallSizes(x, 1, 2, 7);
    TableAt(codec);
    SharedPart(7);
    forall y | 0 <= y < 512 ensures t[y] == ByteOf(At(SharedDisk(), 7), y) {
      Multiple(7);
      DivModUnique(3584 + y, 512, 7, y);
    }
    OtherSizes();
    TableAndHeader();
  }

  lemma TableAndHeader()
    ensures |SharedParts()| == 11 && SharedParts()[0] == HeaderCluster(SharedHeader())
    ensures SharedParts()[7] == Pack(SnapshotFields()) + Zeros(471)
  {
    hide Pack, Filled, HeaderCluster, L2Values, CountValues, SharedHeader;
  }

  lemma TableAt(codec: Codec)
    ensures Shared(codec).h.snapshotsOffset == 3584 && Shared(codec).h.nbSnapshots == 1
  {}

  lemma SharedDescribes(codec: Codec)
    ensures Describes(Shared(codec), SharedDisk(), true)
  {
    hide SharedDisk, ParseHeader, HeaderCluster, CheckSupported, CheckWritable, TableBytes, SharedParts, Pack,
      SmallHeader, ListSnapshots, SnapshotFields;
    SmallGeometry(1, 2, 1, 7);
    SharedPart(0);
    TableAndHeader();
    HeaderThere(SharedHeader(), At(SharedDisk(), 0));
    SharedTableBytes(codec);
    SharedList(codec);
    TableAt(codec);
  }

  lemma SharedClusters(codec: Codec)
    ensures Cl(Shared(codec).h, SharedBytes()) == SharedDisk() && |SharedBytes()| == 5632
    ensures Addressable(Shared(codec).h)
  {
    hide SharedBytes, ClustersOf, Mul, Div, Mod, SmallHeader, SharedParts;
    TablesNamed(codec);
    SmallSizes(Shared(codec), 1, 2, 7);
    SharedPart(0);
  }

  lemma SharedWellFormed(codec: Codec)
    ensures WellFormed(Shared(codec), Cl(Shared(codec).h, SharedBytes()), |SharedBytes()|)
  {
    hide SharedBytes, SharedDisk, Shared, Inv, Legal, MetaOf, Balanced;
    SharedClusters(codec);
    SharedInv(codec);
    SharedLegal(codec);
  }

  /** The file opens, for reading and writing, into a state that meets every premise. */
  lemma SharedOpens(codec: Codec) returns (st: State)
    ensures OpensTo(Shared(codec), SharedBytes(), st) && D(st.core) == SharedDisk() && st.core.cap == 0x10_0000
  {
    hide SharedBytes, SharedDisk, Shared, WellFormed, Cl, Describes, StateOK, Addressable, Inv, MetaOf, Balanced, Legal;
    SharedClusters(codec);
    SharedWellFormed(codec);
    SharedDescribes(codec);
    NothingUnder(codec);
    st := Opens(Shared(codec), SharedBytes());
  }

  lemma NothingUnder(codec: Codec)
    ensures forall v: nat :: Shared(codec).under(v) == Some(0)
    ensures Shared(codec).codec == codec
  {}
}
