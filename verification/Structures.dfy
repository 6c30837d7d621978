/** What an image says about itself: its header, and the snapshots it lists. No write changes either. */
module Structures {
  import opened Bytes
  import opened Arith
  import opened Format
  import opened Accounting
  import opened Disk
  import opened DiskSteps
  import opened Images
  import opened Safety
  import opened Opening

  /** n entries of the snapshot table from byte o on, each giving the place and size of an L1 table. An entry is 40
      bytes, extra data, an id and a name, and the next starts at a multiple of 8. */
  function ListSnapshots(cs: nat, t: seq<byte>, o: nat, n: nat): Option<seq<L1Table>>
    requires cs > 0
    decreases n
  {
    if n == 0 then Some([])
    else
      var end := o + 40 + Field(t, o + 36, 4) + Field(t, o + 12, 2) + Field(t, o + 14, 2);
      if o + 40 > |t| || end > |t| || Mod(Field(t, o, 8), cs) != 0 then None
      else
        match ListSnapshots(cs, t, (end + 7) / 8 * 8, n - 1)
        case None => None
        case Some(rest) => Some([L1Table(Div(Field(t, o, 8), cs), Field(t, o + 8, 4))] + rest)
  }

  ghost function TableBytes(x: Context, d: Clusters): seq<byte> {
    Payload(x.h.ClusterSize(), d, x.h.snapshotsOffset, Mul(x.snapshotTableClusters, x.h.ClusterSize()))
  }

  /** The image has the header of the context, one this reader takes, and lists the snapshots of the context. */
  ghost predicate Describes(x: Context, d: Clusters, writable: bool) {
    && ParseHeader(Slice(At(d, 0), 0, 112)) == Ok(x.h)
    && CheckSupported(x.h).Ok? && (writable ==> CheckWritable(x.h).Ok?)
    && ListSnapshots(x.h.ClusterSize(), TableBytes(x, d), 0, x.h.nbSnapshots) == Some(x.snapshots)
  }

  lemma TableKept(x: Context, d: Clusters, d': Clusters)
    requires Addressable(x.h) && SameStructures(x, d, d')
    ensures TableBytes(x, d') == TableBytes(x, d)
  {
    hide Mul, Div, Mod;
    var cs, n := x.h.ClusterSize(), x.snapshotTableClusters;
    var first := Div(x.h.snapshotsOffset, cs);
    if n > 0 {
      DivMod(x.h.snapshotsOffset, cs);
      MulSum(first, n, cs);
      MulMono(1, n, cs);
      MulOne(cs);
      forall c: nat | first <= c <= Div(x.h.snapshotsOffset + Mul(n, cs) - 1, cs) ensures At(d', c) == At(d, c) {
        DivLess(x.h.snapshotsOffset + Mul(n, cs) - 1, first + n, cs);
        assert ValidSlot(x, Fixed(2, c)) && Settled(Fixed(2, c));
        assert At(d', Fixed(2, c).cluster) == At(d, Fixed(2, c).cluster);
      }
      PayloadKept(cs, d, d', x.h.snapshotsOffset, Mul(n, cs));
    } else {
      MulNothing(cs);
      assert TableBytes(x, d') == [] == TableBytes(x, d);
    }
  }

  lemma MulNothing(d: nat)
    ensures Mul(0, d) == 0
  {}

  /** What keeps the settled structures keeps the image's account of itself. */
  lemma DescribesKept(x: Context, d: Clusters, d': Clusters, writable: bool)
    requires Addressable(x.h) && SameStructures(x, d, d') && Describes(x, d, writable)
    ensures Describes(x, d', writable)
  {
    hide ParseHeader, ListSnapshots, TableBytes, CheckSupported, CheckWritable;
    TableKept(x, d, d');
    assert ValidSlot(x, Fixed(0, 0)) && Settled(Fixed(0, 0));
    assert At(d', Fixed(0, 0).cluster) == At(d, Fixed(0, 0).cluster);
  }

  /** The header read from the device's bytes is the context's. */
  lemma HeaderRead(x: Context, m: seq<byte>, writable: bool)
    requires Legal(x, Cl(x.h, m), |m|) && Describes(x, Cl(x.h, m), writable)
    ensures ReadHeader(m, writable) == Ok(x.h)
  {
    hide ParseHeader, ListSnapshots, TableBytes, CheckSupported, CheckWritable, SlotWord;
    var d := Cl(x.h, m);
    assert ValidSlot(x, Fixed(0, 0));
    assert LegalWord(x.h, Fixed(0, 0), SlotWord(x, d, Fixed(0, 0)), |m|);
    assert Slice(At(d, 0), 0, 112) == m[..112];
  }
}
