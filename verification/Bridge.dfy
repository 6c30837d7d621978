/** From device offsets to clusters: what a read or a write at an offset is, cluster by cluster. */
module Bridge {
  import opened Bytes
  import opened Arith
  import opened Disk
  import opened Engine

  lemma OffsetsApart(cs: nat, c: nat, o: nat, e: nat, p: nat)
    requires o < cs && p < cs && c != e
    ensures Mul(c, cs) + o != Mul(e, cs) + p
  {
    MulBound(c, e, cs, o);
    MulBound(e, c, cs, p);
  }

  lemma ReadCluster(cs: nat, m: seq<byte>, c: nat, o: nat, n: nat)
    requires o + n <= cs && Mul(c, cs) + o + n <= |m|
    ensures m[Mul(c, cs) + o..Mul(c, cs) + o + n] == ClusterOf(cs, m, c)[o..o + n]
  {}

  /** m' differs from m only in the n bytes at o of cluster c. */
  ghost predicate DiffersIn(cs: nat, m: seq<byte>, m': seq<byte>, c: nat, o: nat, n: nat) {
    && |m'| == |m|
    && forall p :: 0 <= p < |m| && m'[p] != m[p] ==> Mul(c, cs) + o <= p < Mul(c, cs) + o + n
  }

  lemma OtherClusterSame(cs: nat, m: seq<byte>, m': seq<byte>, c: nat, o: nat, n: nat, e: nat)
    requires DiffersIn(cs, m, m', c, o, n) && o + n <= cs && e != c
    ensures ClusterOf(cs, m', e) == ClusterOf(cs, m, e)
  {
    forall p | 0 <= p < cs ensures ClusterOf(cs, m', e)[p] == ClusterOf(cs, m, e)[p] {
      var q := Mul(e, cs) + p;
      if Mul(c, cs) + o <= q < Mul(c, cs) + o + n {
        OffsetsApart(cs, c, q - Mul(c, cs), e, p);
      }
    }
  }

  /** Whatever a write leaves inside its range, complete or torn, is a new content for one cluster. */
  lemma OneCluster(cs: nat, m: seq<byte>, m': seq<byte>, c: nat, o: nat, n: nat)
    requires DiffersIn(cs, m, m', c, o, n) && o + n <= cs
    ensures ClustersOf(cs, m') == ClustersOf(cs, m)[c := ClusterOf(cs, m', c)]
  {
    var d, d' := ClustersOf(cs, m), ClustersOf(cs, m');
    forall e: nat ensures d'[e] == d[c := ClusterOf(cs, m', c)][e] {
      if e != c { OtherClusterSame(cs, m, m', c, o, n, e); }
    }
  }

  lemma PutDiffers(cs: nat, m: seq<byte>, c: nat, o: nat, b: seq<byte>)
    requires o + |b| <= cs && Mul(c, cs) + o + |b| <= |m|
    ensures DiffersIn(cs, m, Put(m, Mul(c, cs) + o, b), c, o, |b|)
    ensures ClusterOf(cs, Put(m, Mul(c, cs) + o, b), c) == Put(ClusterOf(cs, m, c), o, b)
  {}

  lemma PutCluster(cs: nat, m: seq<byte>, c: nat, o: nat, b: seq<byte>)
    requires o + |b| <= cs && Mul(c, cs) + o + |b| <= |m|
    ensures ClustersOf(cs, Put(m, Mul(c, cs) + o, b)) == ClustersOf(cs, m)[c := Put(At(ClustersOf(cs, m), c), o, b)]
  {
    PutDiffers(cs, m, c, o, b);
    OneCluster(cs, m, Put(m, Mul(c, cs) + o, b), c, o, |b|);
  }

  lemma GrownByte(m: seq<byte>, len: nat, p: nat)
    requires |m| <= len
    ensures ByteOf(Grown(m, len), p) == ByteOf(m, p)
  {}

  lemma GrownClusters(cs: nat, m: seq<byte>, len: nat)
    requires |m| <= len
    ensures ClustersOf(cs, Grown(m, len)) == ClustersOf(cs, m)
  {
    forall e: nat ensures ClusterOf(cs, Grown(m, len), e) == ClusterOf(cs, m, e) {
      forall o | 0 <= o < cs ensures ClusterOf(cs, Grown(m, len), e)[o] == ClusterOf(cs, m, e)[o] {
        GrownByte(m, len, Mul(e, cs) + o);
      }
    }
    assert forall e: nat :: ClustersOf(cs, Grown(m, len))[e] == ClustersOf(cs, m)[e];
  }

  lemma PayloadByte(cs: nat, m: seq<byte>, p: nat)
    requires cs > 0 && p < |m|
    ensures m[p] == ByteOf(At(ClustersOf(cs, m), Div(p, cs)), Mod(p, cs))
  {
    hide Mul, Div, Mod;
    DivMod(p, cs);
  }

  lemma ReadPayload(cs: nat, m: seq<byte>, off: nat, n: nat)
    requires cs > 0 && off + n <= |m|
    ensures m[off..off + n] == Payload(cs, ClustersOf(cs, m), off, n)
  {
    hide Mul, Div, Mod, ClustersOf;
    forall y | 0 <= y < n ensures m[off + y] == Payload(cs, ClustersOf(cs, m), off, n)[y] {
      PayloadByte(cs, m, off + y);
    }
  }

  lemma Aligned(off: nat, cs: nat)
    requires cs > 0 && Mod(off, cs) == 0
    ensures off == Mul(Div(off, cs), cs)
  {
    DivMod(off, cs);
  }

  lemma {:induction false} MulScale(a: nat, n: nat, cs: nat)
    requires 8 * n == cs
    ensures 8 * Mul(a, n) == Mul(a, cs)
  {
    if a > 0 {
      MulScale(a - 1, n, cs);
    }
  }

  /** Entry i of a table that starts at cluster c, in cluster terms. */
  lemma TableEntry(cs: nat, n: nat, c: nat, i: nat)
    requires 8 * n == cs && n > 0
    ensures Mul(c, cs) + 8 * i == Mul(c + Div(i, n), cs) + 8 * Mod(i, n)
  {
    DivMod(i, n);
    MulScale(Div(i, n), n, cs);
    MulSum(c, Div(i, n), cs);
  }
}
