/** Writes to the shared image: they go through, the snapshot keeps its bytes, and the entries the writer does not
    release leak exactly what they leave behind. */
module SharedWrites {
  import opened Bytes
  import opened Arith
  import opened Format
  import opened Accounting
  import opened Disk
  import opened Images
  import opened Engine
  import opened Safety
  import opened Chunks
  import opened Spans
  import opened Leaks
  import opened Structures
  import opened Runs
  import opened Refusals
  import opened SmallImages
  import opened SharedImage
  import opened Payloads

  lemma SharedRoom(codec: Codec, c: Core)
    requires c.h == Shared(codec).h && c.cap == 0x10_0000 && D(c) == SharedDisk()
    ensures Spare(Shared(codec), c, 11) && Spare(Shared(codec), c, 12)
  {
    hide SmallHeader, SlotWord, CountOf, D, SharedDisk, Spare;
    var x := Shared(codec);
    TablesNamed(codec);
    SharedSlots(codec);
    SharedWord(codec, Block(0));
    SharedCount(codec, 11);
    SharedCount(codec, 12);
    RoomAt(x, c, 1, 2, 7, 11);
    RoomAt(x, c, 1, 2, 7, 12);
  }

  /** What guest cluster j leaves behind: nothing, the host cluster under its zero flag, the second of its span. */
  function LeftBehind(j: nat): Option<nat> {
    if j == 1 then Some(8) else if j == 2 then Some(10) else None
  }

  lemma SharedForgotten(codec: Codec, j: nat, y: nat)
    requires ValidSlot(Shared(codec), Data(0, 0, j))
    ensures Forgotten(Shared(codec).h, SlotWord(Shared(codec), SharedDisk(), Data(0, 0, j)), y)
        <==> LeftBehind(j) == Some(y)
  {
    hide Mul, Div, Mod, SharedDisk, SlotWord, SmallHeader, HostOffset, Compressed, ZeroFlag, PackedEntry,
      DecodeDescriptor;
    TablesNamed(codec);
    SmallSizes(Shared(codec), 1, 2, 7);
    SharedEnd(codec);
    SharedWord(codec, Data(0, 0, j));
    Numbers();
    ZeroWord();
  }

  lemma SharedGround(codec: Codec)
    ensures Small(Shared(codec), 1, 2, 7) && Whole(512, SharedDisk()) && Shared(codec).h.compressionType == 0
    ensures (forall p: nat :: Shared(codec).under(p) == Some(0)) && Shared(codec).codec == codec
  {
    hide SharedBytes;
  }

  lemma SharedReadable(codec: Codec, j: nat)
    requires j < 3 && ValidSlot(Shared(codec), Data(0, 0, j)) && (j == 2 ==> Inflates(codec))
    ensures Whole(512, SharedDisk()) && Shared(codec).h.ClusterSize() == 512
    ensures !Unknown(Content(Shared(codec), SharedDisk(), Data(0, 0, j)))
  {
    hide SmallHeader, SlotWord, SharedDisk, Unknown, ContentOf, Compressed, Mul, Shared, ValidSlot, PackedEntry;
    SharedGround(codec);
    SmallSlot(Shared(codec), 1, 2, 7, j);
    SharedWord(codec, Data(0, 0, j));
    Numbers();
    Readable(Shared(codec), SharedDisk(), Mul(0, Shared(codec).h.L2Entries()) + j, L2Values()[j]);
  }

  // ---- what a write of one byte leaks, and what the snapshot sees ----

  ghost predicate Leaked(x: Context, d: Clusters, lost: Option<nat>) {
    forall y: nat :: Slack(MetaOf(x, d), y) == Bit(lost == Some(y))
  }

  /** One byte written at off goes through on a sound state. */
  ghost predicate GoesThrough(x: Context, st: State, off: nat, b: byte) {
    && StateOK(x, st) && st.core.h == x.h && off + 1 <= x.h.virtualSize
    && WriteAt(st, true, off, [b]).Good? && WriteAt(st, true, off, [b]) == WriteLoop(st, off, [b])
  }

  /** The image opens with every refcount exact; a byte written at off goes through, and then the cluster lost has one
      share too many, every other refcount being exact still. */
  ghost predicate Leaves(x: Context, m: seq<byte>, st: State, off: nat, b: byte, lost: Option<nat>) {
    && OpensTo(x, m, st) && Balanced(x, D(st.core)) && GoesThrough(x, st, off, b)
    && Leaked(x, D(WriteAt(st, true, off, [b]).s.core), lost)
    && (Balanced(x, D(WriteAt(st, true, off, [b]).s.core)) <==> lost == None)
  }

  lemma LeakedBalance(x: Context, d: Clusters, lost: Option<nat>)
    requires Leaked(x, d, lost)
    ensures Balanced(x, d) <==> lost == None
  {
    hide MetaOf, Slack;
    if lost.Some? { assert Slack(MetaOf(x, d), lost.value) == 1; }
  }

  lemma SharedWriteGood(codec: Codec, st: State, j: nat, b: byte)
    requires StateOK(Shared(codec), st) && D(st.core) == SharedDisk() && st.core.cap == 0x10_0000
    requires j < 3 && (j == 2 ==> Inflates(codec))
    ensures GoesThrough(Shared(codec), st, 512 * j, b)
  {
    hide SmallHeader, SharedBytes, SharedDisk, Shared, StateOK, Describes, Spare, Unknown, Content, WriteLoop, Mod,
      SplitVirtual, ValidSlot, SlotWord;
    var x := Shared(codec);
    HeaderOK(x, st);
    SharedGround(codec);
    SmallSlot(x, 1, 2, 7, j);
    SharedRoom(codec, st.core);
    SharedReadable(codec, j);
    OneClusterGoesThrough(x, st, 512 * j, [b], 11, 12);
  }

  lemma SharedLeaving(codec: Codec, j: nat, y: nat)
    requires j < 3
    ensures |Leaving(Shared(codec), SharedDisk(), 512 * j, 1, y)| == Bit(LeftBehind(j) == Some(y))
    ensures Slack(MetaOf(Shared(codec), SharedDisk()), y) == 0
  {
    hide SharedDisk, Shared, Base, Slack, MetaOf, Forgotten, ValidSlot, SlotWord, Leaving;
    SharedGround(codec);
    SmallSlot(Shared(codec), 1, 2, 7, j);
    SharedInv(codec);
    SharedForgotten(codec, j, y);
    LeavingOne(Shared(codec), SharedDisk(), Data(0, 0, j), 0, 1, y);
  }

  lemma LeakedBy(x: Context, st: State, off: nat, b: byte, lost: Option<nat>)
    requires GoesThrough(x, st, off, b)
    requires forall y: nat :: |Leaving(x, D(st.core), off, 1, y)| == Bit(lost == Some(y))
    requires Balanced(x, D(st.core))
    ensures Leaked(x, D(WriteAt(st, true, off, [b]).s.core), lost)
  {
    hide StateOK, WriteLoop, WriteAt, Progress, Slack, MetaOf, Leaving, D;
    var other := WriteLeaks(x, st, off, [b]);
    ProgressWhole(st, off, [b]);
  }

  lemma SharedLeaves(codec: Codec, j: nat, b: byte) returns (st: State)
    requires j < 3 && (j == 2 ==> Inflates(codec))
    ensures D(st.core) == SharedDisk() && Leaves(Shared(codec), SharedBytes(), st, 512 * j, b, LeftBehind(j))
  {
    hide SharedBytes, SharedDisk, Shared, StateOK, WriteLoop, WriteAt, Slack, MetaOf, Leaving, D, LeftBehind, Inflates,
      Describes, Leaked;
    st := SharedOpens(codec);
    SharedInv(codec);
    SharedWriteGood(codec, st, j, b);
    forall y: nat ensures |Leaving(Shared(codec), SharedDisk(), 512 * j, 1, y)| == Bit(LeftBehind(j) == Some(y)) {
      SharedLeaving(codec, j, y);
    }
    LeakedBy(Shared(codec), st, 512 * j, b, LeftBehind(j));
    LeakedBalance(Shared(codec), D(WriteAt(st, true, 512 * j, [b]).s.core), LeftBehind(j));
  }

  /** A write over a zero-flagged entry that names a host cluster leaks one share of that cluster, and nothing else. */
  lemma ZeroFlagLeaks(codec: Codec, b: byte) returns (st: State)
    ensures Leaves(Shared(codec), SharedBytes(), st, 512, b, Some(8))
  {
    hide Shared, SharedBytes, Leaves;
    st := SharedLeaves(codec, 1, b);
  }

  /** A write over a compressed cluster whose payload runs into a second host cluster leaks one share of the second. */
  lemma PackedSpanLeaks(codec: Codec, b: byte) returns (st: State)
    requires Inflates(codec)
    ensures Leaves(Shared(codec), SharedBytes(), st, 1024, b, Some(10))
  {
    hide Shared, SharedBytes, Leaves, Inflates;
    st := SharedLeaves(codec, 2, b);
  }

  /** Both L1 tables see old5 through entry 0 in d; in d' the snapshot still does, and the active table sees b first. */
  ghost predicate Parted(x: Context, d: Clusters, d': Clusters, old5: seq<byte>, b: byte) {
    var cs, active, kept := x.h.ClusterSize(), Data(0, 0, 0), Data(1, 0, 0);
    && Whole(cs, d) && Whole(cs, d') && ValidSlot(x, active) && ValidSlot(x, kept) && |old5| == cs
    && Content(x, d, active) == Known(old5) == Content(x, d, kept)
    && Content(x, d', active) == Known(Put(old5, 0, [b])) && Content(x, d', kept) == Known(old5)
  }

  /** The two L1 tables share cluster 5 until b is written to its first byte. */
  ghost predicate PartsFrom(x: Context, st: State, b: byte) {
    Paired(st) && Parted(x, D(st.core), D(WriteAt(st, true, 0, [b]).s.core), At(D(st.core), 5), b)
  }

  lemma PlainContent(codec: Codec, k: nat)
    requires k <= 1
    ensures ValidSlot(Shared(codec), Data(k, 0, 0)) && Whole(512, SharedDisk()) && Shared(codec).h.ClusterSize() == 512
    ensures |At(SharedDisk(), 5)| == 512
    ensures Content(Shared(codec), SharedDisk(), Data(k, 0, 0)) == Known(At(SharedDisk(), 5))
  {
    hide SmallHeader, SlotWord, SharedDisk, HostOffset, Compressed, ZeroFlag, Mul, Div, Mod, Shared, PackedEntry,
      ValidSlot;
    SharedGround(codec);
    SmallSlot(Shared(codec), 1, 2, 7, 0);
    SharedSlots(codec);
    SharedWord(codec, Data(k, 0, 0));
    Numbers();
  }

  lemma PartedBy(x: Context, st: State, b: byte, old5: seq<byte>)
    requires GoesThrough(x, st, 0, b) && ValidSlot(x, Data(0, 0, 0)) && ValidSlot(x, Data(1, 0, 0))
    requires Base(x.h, Data(0, 0, 0)) == 0 && |old5| == x.h.ClusterSize() && Whole(x.h.ClusterSize(), D(st.core))
    requires Content(x, D(st.core), Data(0, 0, 0)) == Known(old5) == Content(x, D(st.core), Data(1, 0, 0))
    ensures Parted(x, D(st.core), D(WriteAt(st, true, 0, [b]).s.core), old5, b)
  {
    hide StateOK, WriteLoop, WriteAt, D, Base, SlotWord, ValidSlot, Memory, Overlay, CrashSafe, SameStructures, Slack,
      MetaOf, Content;
    WriteAtOK(x, st, true, 0, [b]);
    assert [b][..1] == [b];
    var d, d' := D(st.core), D(WriteAt(st, true, 0, [b]).s.core);
    assert Effect(x, d, d', 0, [b]);
    assert ClusterEffect(x, d, d', Data(0, 0, 0), 0, [b]) && ClusterEffect(x, d, d', Data(1, 0, 0), 0, [b]);
  }

  /** A write over a plain cluster that a snapshot shares leaks nothing; the active view takes the byte, and the
      snapshot's keeps the old one. */
  lemma SharedPlainWrite(codec: Codec, b: byte) returns (st: State)
    ensures Leaves(Shared(codec), SharedBytes(), st, 0, b, None) && PartsFrom(Shared(codec), st, b)
  {
    hide Shared, SharedBytes, SharedDisk, OpensTo, Balanced, Leaked, Parted, StateOK, D, WriteAt, Base, ValidSlot,
      Content;
    st := SharedLeaves(codec, 0, b);
    HeaderOK(Shared(codec), st);
    SharedGround(codec);
    SmallSlot(Shared(codec), 1, 2, 7, 0);
    PlainContent(codec, 0);
    PlainContent(codec, 1);
    PartedBy(Shared(codec), st, b, At(SharedDisk(), 5));
  }

  // ---- the compressed cluster ----

  /** Guest cluster 2 of the opened image reads as its payload's deflate output, cut at one cluster, or not at all. */
  ghost predicate ReadsInflated(x: Context, m: seq<byte>, st: State) {
    && OpensTo(x, m, st)
    && var out := x.codec.inflate(Slice(m, 4864, 768));
    ReadAt(Chain(st), st.caches, 1024, 512).Outcome() == if |out| >= 512 then Ok(out[..512]) else Err(Decompress)
  }

  /** Guest cluster 2 reads as what the payload of entry w decompresses to. */
  ghost predicate PackedOutcome(x: Context, st: State, w: nat) {
    && Paired(st) && x.h.ClusterSize() == 512
    && var out := Inflated(x, PayloadOf(x.h, st.core.dev, w));
    ReadAt(Chain(st), st.caches, 1024, 512).Outcome()
    == if out.Some? then Ok(out.value[0..512]) else Err(Decompress)
  }

  lemma SharedPackedOutcome(codec: Codec, st: State)
    requires StateOK(Shared(codec), st) && D(st.core) == SharedDisk()
    ensures PackedOutcome(Shared(codec), st, PackedEntry())
  {
    hide SharedBytes, SharedDisk, Shared, StateOK, SlotWord, ReadAt, SplitVirtual, Mod, Div, Mul, PackedEntry,
      DecodeDescriptor, ValidSlot, Inflated, PayloadOf, D;
    HeaderOK(Shared(codec), st);
    SharedGround(codec);
    SmallSlot(Shared(codec), 1, 2, 7, 2);
    SharedWord(codec, Data(0, 0, 2));
    PackedBits();
    ClusterTwo(codec);
    CompressedRead(Shared(codec), st, Data(0, 0, 2), 1024, 512);
  }

  lemma OutcomeIsInflated(x: Context, m: seq<byte>, st: State, w: nat)
    requires OpensTo(x, m, st) && x.h.compressionType == 0 && x.h.ClusterSize() == 512
    requires DecodeDescriptor(w, x.h.clusterBits) == (4864, 768)
    requires PackedOutcome(x, st, w)
    ensures ReadsInflated(x, m, st)
  {
    hide StateOK, Describes, ReadAt, DecodeDescriptor;
    assert PayloadOf(x.h, st.core.dev, w) == Slice(m, 4864, 768);
    WholeOutput(x, Slice(m, 4864, 768));
  }

  lemma SharedPackedRead(codec: Codec) returns (st: State)
    ensures ReadsInflated(Shared(codec), SharedBytes(), st)
  {
    hide SharedBytes, SharedDisk, Shared, StateOK, Describes, ReadAt, PackedEntry, DecodeDescriptor, Inflated,
      PayloadOf, ReadsInflated;
    st := SharedOpens(codec);
    SharedPackedOutcome(codec, st);
    SharedGround(codec);
    SmallSlot(Shared(codec), 1, 2, 7, 2);
    SharedEnd(codec);
    PackedBits();
    OutcomeIsInflated(Shared(codec), SharedBytes(), st, PackedEntry());
  }

  lemma WholeOutput(x: Context, payload: seq<byte>)
    requires x.h.compressionType == 0 && x.h.ClusterSize() == 512
    ensures var out, got := x.codec.inflate(payload), Inflated(x, payload);
            && (got.Some? <==> |out| >= 512) && (got.Some? ==> got.value[0..512] == out[..512])
  {}

  lemma PackedBits()
    ensures PackedWord(PackedEntry()) && DecodeDescriptor(PackedEntry(), 9) == (4864, 768)
    ensures L2Values()[2] == PackedEntry()
  {
    hide PackedEntry, DecodeDescriptor;
    Quotients(PackedEntry());
  }

  lemma ClusterTwo(codec: Codec)
    ensures Addresses(Shared(codec).h, 1024, Data(0, 0, 2)) && Mod(1024, 512) == 0
  {
    hide Shared, Mod, Div;
    SharedGround(codec);
    SmallSlot(Shared(codec), 1, 2, 7, 2);
  }
}
