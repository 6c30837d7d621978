/** An image as it is created: header, refcount table, refcount block, and an L1 table of one empty entry at which the
    file ends. It meets every premise of the theorems, and writes to it go through. */
module FreshImage {
  import opened Bytes
  import opened Arith
  import opened Format
  import opened Accounting
  import opened Disk
  import opened Images
  import opened Engine
  import opened Safety
  import opened Chunks
  import opened Spans
  import opened Structures
  import opened Building
  import opened Runs
  import opened Refusals
  import opened SmallImages

  ghost function Fresh(codec: Codec): Context {
    Context(SmallHeader(3, 1, 0, 0), [], 0, codec, (v: nat) => Some(0))
  }

  function FreshParts(): seq<seq<byte>> {
    [HeaderCluster(SmallHeader(3, 1, 0, 0)), Filled([1024], 8, 512), Filled([1, 1, 1, 1], 2, 512)]
  }

  /** The file ends eight bytes into the cluster of its L1 table. */
  function FreshBytes(): seq<byte> { Join(FreshParts()) + Zeros(8) }

  ghost function FreshDisk(): Clusters { ClustersOf(512, FreshBytes()) }

  lemma FreshHeaderSize()
    ensures |HeaderCluster(SmallHeader(3, 1, 0, 0))| == 512
  {
    hide HeaderCluster, SmallHeader, ParseHeader, PlainHeader;
    SmallGeometry(3, 1, 0, 0);
    HeaderThere(SmallHeader(3, 1, 0, 0), HeaderCluster(SmallHeader(3, 1, 0, 0)));
  }

  lemma FreshSizes()
    ensures AllSized(512, FreshParts()) && |FreshParts()| == 3
  {
    hide Filled, HeaderCluster, SmallHeader;
    FreshHeaderSize();
    MulIsProduct(1, 8);
    MulIsProduct(4, 2);
    FilledLength([1024], 8, 512);
    FilledLength([1, 1, 1, 1], 2, 512);
  }

  lemma FreshPart(k: nat)
    requires k < 3
    ensures |FreshBytes()| == 1544 && At(FreshDisk(), k) == FreshParts()[k]
  {
    hide Join, FreshParts, Mul;
    FreshSizes();
    MulIsProduct(3, 512);
    JoinLength(512, FreshParts());
    JoinCluster(512, FreshParts(), Zeros(8), k);
  }

  lemma FreshRootField(b: nat)
    requires b < 64
    ensures Field(At(FreshDisk(), 1), 8 * b, 8) == if b == 0 then 1024 else 0
  {
    hide Filled, FreshDisk, Field, HeaderCluster, SmallHeader;
    FreshPart(1);
    Pow256Values();
    MulIsProduct(1, 8);
    MulIsProduct(b, 8);
    FilledEntry([1024], 8, 512, b);
  }

  lemma FreshCountField(c: nat)
    requires c < 256
    ensures Field(At(FreshDisk(), 2), 2 * c, 2) == if c < 4 then 1 else 0
  {
    hide Filled, FreshDisk, Field, HeaderCluster, SmallHeader;
    FreshPart(2);
    Pow256Values();
    MulIsProduct(4, 2);
    MulIsProduct(c, 2);
    FilledEntry([1, 1, 1, 1], 2, 512, c);
  }

  lemma FreshL1Field()
    ensures Field(At(FreshDisk(), 3), 0, 8) == 0
  {
    hide Join, FreshParts;
    FreshSizes();
    TailCluster(512, FreshParts(), Zeros(8));
    assert Zeros(8) + Zeros(504) == Zeros(512) == [] + Zeros(512);
    ZerosRead([], 512, 0, 8);
  }

  lemma FreshWord(codec: Codec, r: Slot)
    requires ValidSlot(Fresh(codec), r)
    ensures SlotWord(Fresh(codec), FreshDisk(), r) == if r == Block(0) then 1024 else 0
  {
    hide Mul, Div, Mod, FreshDisk, Field, SmallHeader, SlotWord, HostOffset;
    var x := Fresh(codec);
    SmallSizes(x, 3, 1, 0);
    FreshL1Field();
    ZeroWord();
    match r
    case Fixed(_, _) => FixedWord(x, FreshDisk(), r);
    case Block(b) =>
      FreshRootField(b);
      BlockWord(x, FreshDisk(), 3, 1, 0, b);
    case Table(k, _) => TableWord(x, FreshDisk(), 3, 1, 0, k);
    case Data(k, _, j) =>
      TableWord(x, FreshDisk(), 3, 1, 0, k);
      DataWord(x, FreshDisk(), 3, 1, 0, k, j);
  }

  lemma FixedWord(x: Context, d: Clusters, r: Slot)
    requires ValidSlot(x, r) && r.Fixed?
    ensures SlotWord(x, d, r) == 0
  {}

  lemma FreshCount(codec: Codec, c: nat)
    ensures CountOf(Fresh(codec), FreshDisk(), c) == if c < 4 then 1 else 0
  {
    hide FreshDisk, Field, CountOf, SmallHeader;
    FreshRootField(0);
    forall b | 1 <= b < 64 ensures Field(At(FreshDisk(), 1), 8 * b, 8) == 0 { FreshRootField(b); }
    if c < 256 { FreshCountField(c); }
    Counts(Fresh(codec), FreshDisk(), 3, 1, 0, 2, c);
  }

  function FreshOwner(c: nat): Slot {
    if c == 0 then Fixed(0, 0) else if c == 1 then Fixed(1, 1) else if c == 2 then Block(0) else Fixed(3, 3)
  }

  lemma FreshRefs(codec: Codec, r: Slot, c: nat)
    requires ValidSlot(Fresh(codec), r)
    ensures Touches(RefOf(Fresh(codec), FreshDisk(), r), c) ==> c < 4 && r == FreshOwner(c)
    ensures !CopiedRef(RefOf(Fresh(codec), FreshDisk(), r))
  {
    hide Mul, Div, Mod, FreshDisk, SlotWord, SmallHeader, HostOffset, Compressed, Copied, ZeroFlag;
    SmallSizes(Fresh(codec), 3, 1, 0);
    FreshWord(codec, r);
    ZeroWord();
    Multiple(2);
    if r.Fixed? { FreshShape(codec, r); }
  }

  lemma FreshShape(codec: Codec, r: Slot)
    requires ValidSlot(Fresh(codec), r) && r.Fixed?
    ensures r == Fixed(0, 0) || r == Fixed(1, 1) || r == Fixed(3, 3)
  {
    hide Mul, Div, Mod;
    SmallSizes(Fresh(codec), 3, 1, 0);
  }

  lemma FreshLegal(codec: Codec)
    ensures Legal(Fresh(codec), FreshDisk(), 1544)
  {
    hide Mul, Div, Mod, FreshDisk, SlotWord, SmallHeader, HostOffset, Compressed, Copied, ZeroFlag, L1ReservedBits,
      L2ReservedBits;
    var x := Fresh(codec);
    SmallSizes(x, 3, 1, 0);
    ZeroWord();
    FreshEnd(codec);
    forall r | ValidSlot(x, r) ensures LegalWord(x.h, r, SlotWord(x, FreshDisk(), r), 1544) {
      FreshWord(codec, r);
      Nothing(512);
      Multiple(1);
      Multiple(2);
      if r.Fixed? { FreshShape(codec, r); }
    }
  }

  lemma FreshEnd(codec: Codec)
    ensures Fresh(codec).h.l1TableOffset + 8 * Fresh(codec).h.l1Size == 1544
  {}

  lemma FreshInv(codec: Codec)
    ensures Inv(MetaOf(Fresh(codec), FreshDisk()))
  {
    hide FreshDisk, RefOf, ValidSlot, CountOf, FreshOwner;
    var m := MetaOf(Fresh(codec), FreshDisk());
    forall c: nat ensures Users(m, c) <= (if c < 4 then {FreshOwner(c)} else {}) && Count(m, c) >= |Users(m, c)| {
      FreshCount(codec, c);
      forall r | r in Users(m, c) ensures c < 4 && r == FreshOwner(c) { FreshRefs(codec, r, c); }
      SubsetSize(Users(m, c), if c < 4 then {FreshOwner(c)} else {});
    }
    forall r, s, c: nat {:trigger Touches(m.refs[r], c), Touches(m.refs[s], c)}
      | r in m.refs && s in m.refs && Touches(m.refs[r], c) && Touches(m.refs[s], c)
      ensures r == s
    {
      FreshRefs(codec, r, c);
      FreshRefs(codec, s, c);
    }
    forall r | r in m.refs ensures !CopiedRef(m.refs[r]) { FreshRefs(codec, r, 0); }
  }

  lemma FreshDescribes(codec: Codec)
    ensures Describes(Fresh(codec), FreshDisk(), true)
  {
    hide FreshDisk, ParseHeader, HeaderCluster, CheckSupported, CheckWritable, TableBytes;
    SmallGeometry(3, 1, 0, 0);
    FreshPart(0);
    HeaderThere(SmallHeader(3, 1, 0, 0), At(FreshDisk(), 0));
  }

  lemma FreshGround(codec: Codec)
    ensures Small(Fresh(codec), 3, 1, 0) && Whole(512, FreshDisk()) && Fresh(codec).h.compressionType == 0
    ensures forall p: nat :: Fresh(codec).under(p) == Some(0)
  {}

  lemma FreshClusters(codec: Codec)
    ensures Cl(Fresh(codec).h, FreshBytes()) == FreshDisk() && |FreshBytes()| == 1544 && Addressable(Fresh(codec).h)
  {
    hide FreshBytes, ClustersOf, Mul, Div, Mod, SmallHeader, FreshParts;
    FreshGround(codec);
    SmallSizes(Fresh(codec), 3, 1, 0);
    FreshPart(0);
  }

  lemma FreshWellFormed(codec: Codec)
    ensures WellFormed(Fresh(codec), Cl(Fresh(codec).h, FreshBytes()), |FreshBytes()|)
  {
    hide FreshBytes, FreshDisk, Fresh, Inv, Legal, MetaOf;
    FreshClusters(codec);
    FreshInv(codec);
    FreshLegal(codec);
  }

  /** The file opens, for reading and writing, into a state that meets every premise. */
  lemma FreshOpens(codec: Codec) returns (st: State)
    ensures OpensTo(Fresh(codec), FreshBytes(), st) && D(st.core) == FreshDisk()
  {
    hide FreshBytes, FreshDisk, SmallHeader, WellFormed, Cl, Describes, OpensTo, Addressable;
    FreshClusters(codec);
    FreshWellFormed(codec);
    FreshDescribes(codec);
    st := Opens(Fresh(codec), FreshBytes());
  }

  // ---- the first write ----

  lemma FreshRoom(codec: Codec, c: Core)
    requires c.h == Fresh(codec).h && c.cap == 0x10_0000 && D(c) == FreshDisk()
    ensures Spare(Fresh(codec), c, 4) && Spare(Fresh(codec), c, 5)
  {
    hide SmallHeader, SlotWord, CountOf, D, FreshDisk, Spare;
    var x := Fresh(codec);
    SmallSizes(x, 3, 1, 0);
    FreshWord(codec, Block(0));
    FreshCount(codec, 4);
    FreshCount(codec, 5);
    RoomAt(x, c, 3, 1, 0, 4);
    RoomAt(x, c, 3, 1, 0, 5);
  }

  lemma FreshReadable(codec: Codec)
    ensures ValidSlot(Fresh(codec), Data(0, 0, 0)) && Whole(512, FreshDisk()) && Fresh(codec).h.ClusterSize() == 512
    ensures !Unknown(Content(Fresh(codec), FreshDisk(), Data(0, 0, 0)))
  {
    hide SmallHeader, SlotWord, FreshDisk, Unknown, ContentOf, Compressed, Mul, Fresh, ValidSlot;
    FreshGround(codec);
    SmallSlot(Fresh(codec), 3, 1, 0, 0);
    FreshWord(codec, Data(0, 0, 0));
    ZeroWord();
    Readable(Fresh(codec), FreshDisk(), Mul(0, Fresh(codec).h.L2Entries()), 0);
  }

  /** One byte written at the start of the disk goes through, and the guest's disk changes in that byte alone. */
  ghost predicate FirstByte(x: Context, m: seq<byte>, st: State, b: byte) {
    && OpensTo(x, m, st) && WriteAt(st, true, 0, [b]).Good?
    && Memory(Chain(WriteAt(st, true, 0, [b]).s)) == Overlay(Memory(Chain(st)), 0, [b])
  }

  /** The first write to a fresh image goes through. */
  lemma FreshWrite(codec: Codec, b: byte) returns (st: State)
    ensures FirstByte(Fresh(codec), FreshBytes(), st, b)
  {
    hide SmallHeader, FreshBytes, FreshDisk, Fresh, StateOK, Describes, Spare, Unknown, Content, WriteAt, Overlay,
      Memory, SpanDone, Taken, Mod;
    var x := Fresh(codec);
    st := FreshOpens(codec);
    HeaderOK(x, st);
    FreshRoom(codec, st.core);
    FreshReadable(codec);
    FreshGround(codec);
    SmallSlot(x, 3, 1, 0, 0);
    OneClusterGoesThrough(x, st, 0, [b], 4, 5);
    WriteAtOK(x, st, true, 0, [b]);
    assert [b][..1] == [b];
  }
}
