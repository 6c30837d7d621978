/** Why COPIED has to be true of every entry: on any device at all, a write through a flag that a lookup believes
    changes every view that names the cluster. */
module StaleFlags {
  import opened Bytes
  import opened Arith
  import opened Format
  import opened Accounting
  import opened Disk
  import opened Engine
  import opened Bridge
  import opened Safety

  /** The lookup at cursor finds a plain cluster at host whose flag, and whose L1 entry's flag, say COPIED. */
  predicate Believed(st: State, cursor: nat, host: nat)
    requires Paired(st)
  {
    var l := LookupCluster(st.core, st.caches[0], cursor);
    l.Good? && l.v == Plain(host, true)
  }

  /** No refcount is read: the bytes go straight to the cluster the entry names. */
  lemma BelievedWrite(st: State, cursor: nat, src: seq<byte>, host: nat)
    requires Paired(st) && Believed(st, cursor, host)
    requires host + Mod(cursor, st.core.h.ClusterSize()) + |src| <= |st.core.dev|
    ensures var w := WriteChunk(st, cursor, src);
            w.Good? && w.s.core == DevWrite(st.core, host + Mod(cursor, st.core.h.ClusterSize()), src).s
  {
    hide LookupCluster, Mod;
  }

  /** The entry of s is that of a plain cluster, and is not stored in cluster k, nor is the L1 entry above it. */
  ghost predicate PlainApart(x: Context, d: Clusters, s: Slot, k: nat) {
    && ValidSlot(x, s) && s.Data? && ValidSlot(x, Table(s.k, s.i))
    && HostOffset(SlotWord(x, d, Table(s.k, s.i))) != 0
    && Home(x, d, s).0 != k && Home(x, d, Table(s.k, s.i)).0 != k
    && var w := SlotWord(x, d, s);
    !Compressed(w) && !(x.h.version >= 3 && ZeroFlag(w)) && HostOffset(w) != 0
  }

  lemma WordApart(x: Context, d: Clusters, d': Clusters, s: Slot, k: nat, b: seq<byte>)
    requires d' == d[k := b] && PlainApart(x, d, s, k)
    ensures SlotWord(x, d', s) == SlotWord(x, d, s)
  {
    hide Mul, Div, Mod, Word, HostOffset, Compressed, ZeroFlag;
    var t := Table(s.k, s.i);
    assert Home(x, d', t) == Home(x, d, t);
    assert SlotWord(x, d', t) == SlotWord(x, d, t);
    assert Home(x, d', s) == Home(x, d, s);
  }

  /** The cluster a plain entry names. */
  ghost function Named(x: Context, d: Clusters, s: Slot): nat
    requires ValidSlot(x, s)
  {
    Div(HostOffset(SlotWord(x, d, s)), x.h.ClusterSize())
  }

  lemma ViewAfter(x: Context, d: Clusters, d': Clusters, s: Slot, k: nat, o: nat, src: seq<byte>)
    requires Whole(x.h.ClusterSize(), d) && Whole(x.h.ClusterSize(), d') && PlainApart(x, d, s, k)
    requires o + |src| <= x.h.ClusterSize() && d' == d[k := Put(At(d, k), o, src)]
    ensures Content(x, d', s) == if Named(x, d, s) == k then Put(Content(x, d, s), o, Known(src)) else Content(x, d, s)
  {
    hide SlotWord, Home, Mul, Div, Mod, HostOffset, Compressed, ZeroFlag;
    WordApart(x, d, d', s, k, Put(At(d, k), o, src));
    assert Content(x, d, s) == Known(At(d, Named(x, d, s))) && Content(x, d', s) == Known(At(d', Named(x, d, s)));
  }

  lemma PutChanges(a: seq<byte>, o: nat, src: seq<byte>)
    requires o + |src| <= |a|
    ensures Put(a, o, src) == a <==> src == a[o..o + |src|]
  {
    if Put(a, o, src) == a {
      forall i | 0 <= i < |src| ensures src[i] == a[o..o + |src|][i] { assert Put(a, o, src)[o + i] == src[i]; }
    }
  }

  /** After a believed write, whatever the refcounts: a view through any L1 table, of the disk or of a snapshot, changed
      exactly when its entry names the same host cluster and the bytes there were others. */
  lemma BelievedFlagShows(x: Context, st: State, cursor: nat, src: seq<byte>, host: nat, s: Slot)
    requires Paired(st) && st.core.h == x.h && Believed(st, cursor, host)
    requires Mod(host, x.h.ClusterSize()) == 0 && host + x.h.ClusterSize() <= |st.core.dev|
    requires Mod(cursor, x.h.ClusterSize()) + |src| <= x.h.ClusterSize()
    requires PlainApart(x, D(st.core), s, Div(host, x.h.ClusterSize()))
    ensures var w, k, o := WriteChunk(st, cursor, src), Div(host, x.h.ClusterSize()), Mod(cursor, x.h.ClusterSize());
            && w.Good? && w.s.core.h == x.h && |At(D(st.core), k)| == x.h.ClusterSize()
            && (Content(x, D(w.s.core), s) != Content(x, D(st.core), s)
                <==> Named(x, D(st.core), s) == k && At(D(st.core), k)[o..o + |src|] != src)
  {
    hide LookupCluster, SlotWord, Home, Mul, Div, Mod, HostOffset, Compressed, ZeroFlag, ClustersOf, Content,
      WriteChunk;
    var cs := x.h.ClusterSize();
    var k, o := Div(host, cs), Mod(cursor, cs);
    DivMod(host, cs);
    BelievedWrite(st, cursor, src, host);
    PutCluster(cs, st.core.dev, k, o, src);
    var d, d' := D(st.core), D(WriteChunk(st, cursor, src).s.core);
    ViewAfter(x, d, d', s, k, o, src);
    PutChanges(At(d, k), o, src);
    ShownView(x, d, s, o, src);
  }

  lemma ShownView(x: Context, d: Clusters, s: Slot, o: nat, src: seq<byte>)
    requires Whole(x.h.ClusterSize(), d) && ValidSlot(x, s) && s.Data? && o + |src| <= x.h.ClusterSize()
    requires var w := SlotWord(x, d, s); !Compressed(w) && !(x.h.version >= 3 && ZeroFlag(w)) && HostOffset(w) != 0
    ensures var b := At(d, Named(x, d, s));
            |b| == x.h.ClusterSize()
            && (Put(Content(x, d, s), o, Known(src)) == Content(x, d, s) <==> Put(b, o, src) == b)
  {
    hide SlotWord, Home, Mul, Div, Mod, HostOffset, Compressed, ZeroFlag;
    var b := At(d, Named(x, d, s));
    assert Content(x, d, s) == Known(b);
    KnownSame(b, o, src);
  }

  lemma KnownSame(b: seq<byte>, o: nat, src: seq<byte>)
    requires o + |src| <= |b|
    ensures Put(Known(b), o, Known(src)) == Known(b) <==> Put(b, o, src) == b
  {
    assert Put(Known(b), o, Known(src)) == Known(Put(b, o, src));
    if Known(Put(b, o, src)) == Known(b) {
      forall i | 0 <= i < |b| ensures Put(b, o, src)[i] == b[i] { assert Known(Put(b, o, src))[i] == Known(b)[i]; }
    }
  }
}
