/** What holds of the device between any two writes, and what a single write keeps. */
module Safety {
  import opened Bytes
  import opened Arith
  import opened Format
  import opened Accounting
  import opened Disk
  import opened DiskSteps
  import opened Images
  import opened Bridge
  import opened Engine

  ghost function Cl(h: Header, m: seq<byte>): (d: Clusters)
    ensures Whole(h.ClusterSize(), d)
  {
    ClustersOf(h.ClusterSize(), m)
  }

  ghost function D(c: Core): (d: Clusters)
    ensures Whole(c.h.ClusterSize(), d)
  {
    Cl(c.h, c.dev)
  }

  /** At most 8 bytes of one 512-byte sector, as every table entry and refcount is. */
  predicate OneSector(off: nat, n: nat) { n <= 8 && off % 512 + n <= 512 }

  /** The device bytes a crash may leave behind during one step. A few bytes of one sector are written or not; of any
      other write any bytes may have arrived. */
  ghost predicate CrashImage(st: DevStep, m: seq<byte>) {
    match st
    case Patch(pre, off, buf) =>
      && off + |buf| <= |pre| && |m| == |pre|
      && if OneSector(off, |buf|) then m == pre || m == Put(pre, off, buf)
         else forall p :: 0 <= p < |m| ==> m[p] == pre[p] || (off <= p < off + |buf| && m[p] == buf[p - off])
    case Extend(pre, len) => m == pre || (|pre| <= len && m == Grown(pre, len))
  }

  ghost predicate DeviceOK(x: Context, c: Core) {
    && c.h == x.h && c.codec == x.codec && Addressable(c.h)
    && WellFormed(x, D(c), c.imageLen)
    && c.imageLen <= |c.dev| <= c.cap < BIT_56
  }

  /** A crash image that is a well-formed image reading exactly as d0 does, through every L1 table. */
  ghost predicate ReadsAs(x: Context, d0: Clusters, m: seq<byte>)
    requires Whole(x.h.ClusterSize(), d0)
  {
    WellFormed(x, Cl(x.h, m), |m|) && SameContents(x, d0, Cl(x.h, m))
  }

  ghost predicate CrashesReadAs(x: Context, d0: Clusters, log: seq<DevStep>, from: nat)
    requires Whole(x.h.ClusterSize(), d0)
  {
    forall n, m | from <= n < |log| && CrashImage(log[n], m) :: ReadsAs(x, d0, m)
  }

  ghost predicate Extends(c: Core, c': Core) {
    && c'.h == c.h && c'.codec == c.codec && c'.cap == c.cap
    && c.imageLen <= c'.imageLen && |c.dev| <= |c'.dev|
    && c.log <= c'.log
  }

  /** Device work no guest view can see, at any moment of it. */
  ghost predicate Quiet(x: Context, c: Core, c': Core)
    requires c.h == x.h
  {
    && Extends(c, c') && DeviceOK(x, c') && SameContents(x, D(c), D(c'))
    && CrashesReadAs(x, D(c), c'.log, |c.log|)
  }

  lemma QuietTrans(x: Context, a: Core, b: Core, c: Core)
    requires a.h == x.h && Quiet(x, a, b) && Quiet(x, b, c)
    ensures Quiet(x, a, c)
  {
    hide WellFormed, Content;
    forall n, m | |a.log| <= n < |c.log| && CrashImage(c.log[n], m) ensures ReadsAs(x, D(a), m) {
      if n < |b.log| {
        assert c.log[n] == b.log[n];
      } else {
        assert ReadsAs(x, D(b), m);
      }
    }
  }

  lemma QuietSelf(x: Context, c: Core)
    requires DeviceOK(x, c)
    ensures Quiet(x, c, c)
  {}

  /** Only memory changed. */
  lemma QuietMemory(x: Context, c: Core, c1: Core, c2: Core)
    requires c.h == x.h && Quiet(x, c, c1) && c2 == c1.(l1 := c2.l1, root := c2.root, cursor := c2.cursor)
    ensures Quiet(x, c, c2)
  {}

  lemma GrowQuiet(x: Context, c: Core, off: nat)
    requires DeviceOK(x, c)
    ensures var r := DevGrowForCluster(c, off);
            && Quiet(x, c, r.s) && D(r.s) == D(c)
            && r.s == c.(dev := r.s.dev, log := r.s.log)
            && (r.Good? ==> off + c.h.ClusterSize() <= |r.s.dev|)
  {
    hide WellFormed, Content;
    var r := DevGrowForCluster(c, off);
    var end := off + c.h.ClusterSize();
    if |c.dev| < end <= c.cap {
      GrownClusters(c.h.ClusterSize(), c.dev, end);
      forall n, m | |c.log| <= n < |r.s.log| && CrashImage(r.s.log[n], m) ensures ReadsAs(x, D(c), m) {
        SameImage(x, c, |m|);
      }
    }
  }

  lemma SameImage(x: Context, c: Core, len: nat)
    requires DeviceOK(x, c) && c.imageLen <= len
    ensures WellFormed(x, D(c), len) && SameContents(x, D(c), D(c))
  {
    LegalGrows(x, D(c), c.imageLen, len);
  }

  /** A table entry or a refcount is written where that changes no view. */
  lemma SmallWrite(x: Context, c: Core, k: nat, o: nat, buf: seq<byte>, d': Clusters)
    requires DeviceOK(x, c) && OneSector(o, |buf|)
    requires o + |buf| <= c.h.ClusterSize() && Mul(k, c.h.ClusterSize()) + o + |buf| <= |c.dev|
    requires d' == D(c)[k := Put(At(D(c), k), o, buf)] && Whole(x.h.ClusterSize(), d')
    requires WellFormed(x, d', c.imageLen) && SameContents(x, D(c), d')
    ensures var r := DevWrite(c, Mul(k, c.h.ClusterSize()) + o, buf);
            && r.Good? && D(r.s) == d' && Quiet(x, c, r.s)
            && r.s == c.(dev := r.s.dev, imageLen := r.s.imageLen, log := r.s.log)
  {
    hide Content, Legal, Inv, MetaOf, ClustersOf;
    var cs := c.h.ClusterSize();
    var c' := DevWrite(c, Mul(k, cs) + o, buf).s;
    SectorInCluster(c.h, k, o, |buf|);
    PutCluster(cs, c.dev, k, o, buf);
    LegalGrows(x, d', c.imageLen, c'.imageLen);
    forall n, m | |c.log| <= n < |c'.log| && CrashImage(c'.log[n], m) ensures ReadsAs(x, D(c), m) {
      TornSmall(x, c, c', d', Mul(k, cs) + o, buf, m);
    }
  }

  lemma SectorInCluster(h: Header, k: nat, o: nat, n: nat)
    ensures OneSector(Mul(k, h.ClusterSize()) + o, n) <==> OneSector(o, n)
  {
    hide Mul;
    var m := Mul(k, h.ClusterSize());
    MulMultiple(k, h.ClusterSize(), 512);
    assert m == 512 * (m / 512);
    assert (512 * (m / 512) + o) % 512 == o % 512;
  }

  lemma TornSmall(x: Context, c: Core, c': Core, d': Clusters, off: nat, buf: seq<byte>, m: seq<byte>)
    requires DeviceOK(x, c) && OneSector(off, |buf|)
    requires off + |buf| <= |c.dev| && c'.h == c.h && c'.dev == Put(c.dev, off, buf)
    requires D(c') == d' && WellFormed(x, d', c.imageLen) && SameContents(x, D(c), d')
    requires CrashImage(Patch(c.dev, off, buf), m)
    ensures ReadsAs(x, D(c), m)
  {
    hide Content, Legal, Inv, MetaOf, ClustersOf;
    SameImage(x, c, |m|);
    LegalGrows(x, d', c.imageLen, |m|);
  }

  /** A cluster nothing names is filled: torn or whole, nobody sees it. */
  lemma FillWrite(x: Context, c: Core, k: nat, buf: seq<byte>)
    requires DeviceOK(x, c) && |buf| == c.h.ClusterSize() && Fits(c.h, k, |c.dev|)
    requires Users(MetaOf(x, D(c)), k) == {}
    ensures var r := DevWrite(c, Mul(k, c.h.ClusterSize()), buf);
            && r.Good? && D(r.s) == D(c)[k := buf] && Quiet(x, c, r.s)
            && r.s == c.(dev := r.s.dev, imageLen := r.s.imageLen, log := r.s.log)
            && Fits(c.h, k, r.s.imageLen)
            && MetaOf(x, D(r.s)) == MetaOf(x, D(c)) && SameWords(x, D(c), D(r.s))
  {
    hide Content, Legal, Inv, ClustersOf;
    var cs := c.h.ClusterSize();
    var c' := DevWrite(c, Mul(k, cs), buf).s;
    PutCluster(cs, c.dev, k, 0, buf);
    assert Put(At(D(c), k), 0, buf) == buf;
    FillUnused(x, D(c), c.imageLen, k, buf);
    LegalGrows(x, D(c'), c.imageLen, c'.imageLen);
    forall n, m | |c.log| <= n < |c'.log| && CrashImage(c'.log[n], m) ensures ReadsAs(x, D(c), m) {
      TornFill(x, c, k, buf, m);
    }
  }

  lemma TornFill(x: Context, c: Core, k: nat, buf: seq<byte>, m: seq<byte>)
    requires DeviceOK(x, c) && |buf| == c.h.ClusterSize() && Fits(c.h, k, |c.dev|)
    requires Users(MetaOf(x, D(c)), k) == {}
    requires CrashImage(Patch(c.dev, Mul(k, c.h.ClusterSize()), buf), m)
    ensures ReadsAs(x, D(c), m)
  {
    hide Content, Legal;
    var cs := c.h.ClusterSize();
    OneCluster(cs, c.dev, m, k, 0, cs);
    FillUnused(x, D(c), c.imageLen, k, ClusterOf(cs, m, k));
    LegalGrows(x, Cl(x.h, m), c.imageLen, |m|);
  }
}
