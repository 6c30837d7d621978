/** An image as clusters: its slots, what they name, and what each guest cluster holds. */
module Disk {
  import opened Bytes
  import opened Arith
  import opened Format
  import opened Accounting

  /** The content of every host cluster; clusters past the end of the device are zeros. */
  type Clusters = imap<nat, seq<byte>>

  ghost function ByteOf(m: seq<byte>, p: nat): byte {
    if p < |m| then m[p] else 0
  }

  ghost function ClusterOf(cs: nat, m: seq<byte>, c: nat): (r: seq<byte>)
    ensures |r| == cs
    ensures forall o :: 0 <= o < cs ==> r[o] == ByteOf(m, Mul(c, cs) + o)
  {
    seq<byte>(cs, (o: nat) => ByteOf(m, Mul(c, cs) + o))
  }

  ghost function ClustersOf(cs: nat, m: seq<byte>): (d: Clusters)
    ensures Whole(cs, d)
  {
    imap c: nat | true :: ClusterOf(cs, m, c)
  }

  ghost predicate Whole(cs: nat, d: Clusters) {
    forall c: nat :: c in d && |d[c]| == cs
  }

  ghost function At(d: Clusters, c: nat): seq<byte> {
    if c in d then d[c] else []
  }

  datatype L1Table = L1Table(cluster: nat, size: nat)

  /** What surrounds the bytes: the header, the snapshots' L1 tables, and what a guest byte no cluster of this
      image holds reads as. */
  datatype Context = Context(
    h: Header, snapshots: seq<L1Table>, snapshotTableClusters: nat, codec: Codec, under: nat -> Option<byte>)

  function L1(x: Context, k: nat): L1Table
    requires k <= |x.snapshots|
  {
    if k == 0 then L1Table(Div(x.h.l1TableOffset, x.h.ClusterSize()), x.h.l1Size) else x.snapshots[k - 1]
  }

  function RootCluster(x: Context): nat { Div(x.h.refcountTableOffset, x.h.ClusterSize()) }

  function RootEntries(x: Context): nat { Mul(x.h.refcountTableClusters, x.h.L2Entries()) }

  /** Entry e of a refcount block; entries narrower than a byte fill it from the low bits up. */
  ghost function CountAt(h: Header, block: seq<byte>, e: nat): nat {
    var bits := RefcountBits(h);
    if bits >= 8 then
      Decode(Slice(block, e * (bits / 8), bits / 8))
    else
      Div(ByteOf(block, e * bits / 8), Pow2(e * bits % 8)) % Pow2(bits)
  }

  // ---- slots ----

  function FixedFirst(x: Context, owner: nat): nat
    requires owner < 4 + |x.snapshots|
  {
    if owner == 0 then 0
    else if owner == 1 then RootCluster(x)
    else if owner == 2 then Div(x.h.snapshotsOffset, x.h.ClusterSize())
    else L1(x, owner - 3).cluster
  }

  function FixedCount(x: Context, owner: nat): nat
    requires owner < 4 + |x.snapshots|
  {
    if owner == 0 then 1
    else if owner == 1 then x.h.refcountTableClusters
    else if owner == 2 then x.snapshotTableClusters
    else CeilDiv(L1(x, owner - 3).size, x.h.L2Entries())
  }

  predicate ValidSlot(x: Context, r: Slot) {
    match r
    case Fixed(o, c) => o < 4 + |x.snapshots| && FixedFirst(x, o) <= c < FixedFirst(x, o) + FixedCount(x, o)
    case Block(b) => b < RootEntries(x)
    case Table(k, i) => k <= |x.snapshots| && i < L1(x, k).size
    case Data(k, i, j) => k <= |x.snapshots| && i < L1(x, k).size && j < x.h.L2Entries()
  }

  ghost predicate AreSlots(x: Context, s: set<Slot>) { forall r :: r in s <==> ValidSlot(x, r) }

  /** An image has finitely many slots. */
  lemma SlotsFinite(x: Context)
    ensures exists s: set<Slot> :: AreSlots(x, s)
  {
    var fixed := set o: nat, c: nat | 0 <= o < 4 + |x.snapshots|
                   && FixedFirst(x, o) <= c < FixedFirst(x, o) + FixedCount(x, o) :: Fixed(o, c);
    var blocks := set b: nat | 0 <= b < RootEntries(x) :: Block(b);
    var tables := set k: nat, i: nat | 0 <= k <= |x.snapshots| && 0 <= i < L1(x, k).size :: Table(k, i);
    var data := set k: nat, i: nat, j: nat | 0 <= k <= |x.snapshots| && 0 <= i < L1(x, k).size
                  && 0 <= j < x.h.L2Entries() :: Data(k, i, j);
    assert AreSlots(x, fixed + blocks + tables + data);
  }

  ghost function Slots(x: Context): (s: set<Slot>)
    ensures forall r :: r in s <==> ValidSlot(x, r)
  {
    SlotsFinite(x);
    var s: set<Slot> :| AreSlots(x, s);
    s
  }

  /** The cluster and index a slot's 8-byte word is stored at. */
  ghost function Home(x: Context, d: Clusters, r: Slot): (nat, nat)
    requires ValidSlot(x, r)
    decreases r.Data?, 0
  {
    var n := x.h.L2Entries();
    match r
    case Fixed(_, c) => (c, 0)
    case Block(b) => (RootCluster(x) + Div(b, n), Mod(b, n))
    case Table(k, i) => (L1(x, k).cluster + Div(i, n), Mod(i, n))
    case Data(k, i, j) => (Div(HostOffset(SlotWord(x, d, Table(k, i))), x.h.ClusterSize()), j)
  }

  ghost function SlotWord(x: Context, d: Clusters, r: Slot): (w: u64)
    requires ValidSlot(x, r)
    decreases r.Data?, 1
  {
    if r.Fixed? || (r.Data? && HostOffset(SlotWord(x, d, Table(r.k, r.i))) == 0) then 0
    else Word(At(d, Home(x, d, r).0), Home(x, d, r).1)
  }

  ghost function RefOfWord(h: Header, r: Slot, w: nat): Ref {
    var cs := h.ClusterSize();
    match r
    case Fixed(_, c) => One(c, false)
    case Block(_) => if w == 0 then Nil else One(Div(w, cs), false)
    case Table(_, _) => if HostOffset(w) == 0 then Nil else One(Div(HostOffset(w), cs), Copied(w))
    case Data(_, _, _) =>
      if Compressed(w) then
        var (off, span) := DecodeDescriptor(w, h.clusterBits);
        Span(Div(off, cs), Div(off + span - 1, cs))
      else if HostOffset(w) == 0 then Nil
      else One(Div(HostOffset(w), cs), Copied(w) && !(h.version >= 3 && ZeroFlag(w)))
  }

  ghost function RefOf(x: Context, d: Clusters, r: Slot): Ref
    requires ValidSlot(x, r)
  {
    RefOfWord(x.h, r, SlotWord(x, d, r))
  }

  ghost function CountOf(x: Context, d: Clusters, c: nat): nat {
    var b := Div(c, EntriesPerBlock(x.h));
    if b < RootEntries(x) && SlotWord(x, d, Block(b)) != 0 then
      CountAt(x.h, At(d, Div(SlotWord(x, d, Block(b)), x.h.ClusterSize())), Mod(c, EntriesPerBlock(x.h)))
    else 0
  }

  function Coverage(x: Context): nat {
    Mul(RootEntries(x), EntriesPerBlock(x.h))
  }

  ghost function MetaOf(x: Context, d: Clusters): (m: Meta)
    ensures m.refs.Keys == Slots(x)
    ensures forall c: nat :: Count(m, c) == CountOf(x, d, c)
  {
    var m := Meta(map r | r in Slots(x) :: RefOf(x, d, r), map c: nat | 0 <= c < Coverage(x) :: CountOf(x, d, c));
    forall c: nat ensures Count(m, c) == CountOf(x, d, c) {
      if c >= Coverage(x) { PastCoverageIsZero(x, d, c); }
    }
    m
  }

  lemma PastCoverageIsZero(x: Context, d: Clusters, c: nat)
    requires c >= Coverage(x)
    ensures CountOf(x, d, c) == 0
  {
    var n := EntriesPerBlock(x.h);
    DivMod(c, n);
    MulBound(Div(c, n), RootEntries(x), n, Mod(c, n));
  }

  /** Entries the reader accepts: no reserved bits, aligned, inside the first len bytes. Of the structures without
      entries only the header and the refcount table have to be there whole. */
  ghost predicate LegalWord(h: Header, r: Slot, w: nat, len: nat) {
    var cs := h.ClusterSize();
    match r
    case Fixed(o, c) => o <= 1 ==> Mul(c, cs) + cs <= len
    case Block(_) => w != 0 ==> Mod(w, cs) == 0 && w + cs <= len
    case Table(_, _) => L2TableOffset(h, len, w).Ok?
    case Data(_, _, _) => Classify(h, len, false, w).Ok?
  }

  /** The entries of the active L1 table end inside the first len bytes, and the reader accepts every entry. */
  ghost predicate Legal(x: Context, d: Clusters, len: nat) {
    && x.h.l1TableOffset + 8 * x.h.l1Size <= len
    && forall r :: ValidSlot(x, r) ==> LegalWord(x.h, r, SlotWord(x, d, r), len)
  }

  // ---- what a guest cluster holds ----

  ghost function Payload(cs: nat, d: Clusters, off: nat, n: nat): (p: seq<byte>)
    requires cs > 0
    ensures |p| == n
    ensures forall y :: 0 <= y < n ==> p[y] == ByteOf(At(d, Div(off + y, cs)), Mod(off + y, cs))
  {
    seq<byte>(n, (y: nat) => ByteOf(At(d, Div(off + y, cs)), Mod(off + y, cs)))
  }

  ghost function Known(b: seq<byte>): (r: seq<Option<byte>>)
    ensures |r| == |b| && forall o :: 0 <= o < |b| ==> r[o] == Some(b[o])
  {
    seq(|b|, (o: nat) requires o < |b| => Some(b[o]))
  }

  /** The bytes a guest reads in the cluster an L2 entry describes; None where reading is an error. */
  ghost function ContentOf(x: Context, d: Clusters, virtCluster: nat, w: nat): (r: seq<Option<byte>>)
    requires Whole(x.h.ClusterSize(), d)
    ensures |r| == x.h.ClusterSize()
  {
    var cs := x.h.ClusterSize();
    if Compressed(w) then
      var (off, span) := DecodeDescriptor(w, x.h.clusterBits);
      var out := Unpack(x.h, x.codec, Payload(cs, d, off, span));
      if out.Ok? then Known(out.value) else seq(cs, _ => None)
    else if x.h.version >= 3 && ZeroFlag(w) then Known(Zeros(cs))
    else if HostOffset(w) == 0 then seq(cs, (o: nat) => x.under(Mul(virtCluster, cs) + o))
    else Known(At(d, Div(HostOffset(w), cs)))
  }

  /** The guest's view of the cluster that L1 table k reaches through entries i and j. */
  ghost function Content(x: Context, d: Clusters, r: Slot): (v: seq<Option<byte>>)
    requires ValidSlot(x, r) && r.Data? && Whole(x.h.ClusterSize(), d)
    ensures |v| == x.h.ClusterSize()
  {
    ContentOf(x, d, Mul(r.i, x.h.L2Entries()) + r.j, SlotWord(x, d, r))
  }
}
