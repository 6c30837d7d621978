/** A whole write: many clusters in any mix of states, and what every crash and every refusal leaves. */
module Spans {
  import opened Bytes
  import opened Arith
  import opened Format
  import opened Accounting
  import opened Disk
  import opened Images
  import opened Engine
  import opened Safety
  import opened Allocator
  import opened Publishing
  import opened Reading
  import opened Chunks
  import opened Writes

  /** The virtual offset of the first byte of the guest cluster r describes. */
  function Base(h: Header, r: Slot): nat
    requires r.Data?
  {
    VirtualOffset(h, r.i, r.j, 0)
  }

  /** The guest cluster of r, read through the active table, meets the n bytes from off on. */
  predicate Meets(h: Header, r: Slot, off: nat, n: nat)
    requires r.Data?
  {
    r.k == 0 && n > 0 && Base(h, r) < off + n && off < Base(h, r) + h.ClusterSize()
  }

  ghost predicate Untouched(x: Context, d: Clusters, d': Clusters, r: Slot)
    requires Whole(x.h.ClusterSize(), d) && Whole(x.h.ClusterSize(), d') && ValidSlot(x, r) && r.Data?
  {
    Content(x, d', r) == Content(x, d, r) && SlotWord(x, d', r) == SlotWord(x, d, r)
  }

  /** Byte o of r's cluster after buf is written at off, and nothing else. */
  ghost function NewByte(x: Context, d: Clusters, r: Slot, o: nat, off: nat, buf: seq<byte>): Option<byte>
    requires Whole(x.h.ClusterSize(), d) && ValidSlot(x, r) && r.Data? && o < x.h.ClusterSize()
  {
    if r.k == 0 && off <= Base(x.h, r) + o < off + |buf| then Some(buf[Base(x.h, r) + o - off]) else Content(x, d, r)[o]
  }

  ghost predicate ClusterEffect(x: Context, d: Clusters, d': Clusters, r: Slot, off: nat, buf: seq<byte>)
    requires Whole(x.h.ClusterSize(), d) && Whole(x.h.ClusterSize(), d') && ValidSlot(x, r) && r.Data?
  {
    && (forall o | 0 <= o < x.h.ClusterSize() :: Content(x, d', r)[o] == NewByte(x, d, r, o, off, buf))
    && (!Meets(x.h, r, off, |buf|) ==> Untouched(x, d, d', r))
    && (SlotWord(x, d', r) == SlotWord(x, d, r) || NewEntry(SlotWord(x, d', r)))
  }

  /** Through every L1 table: exactly buf replaced the bytes at off of the active view, and nothing else changed. */
  ghost predicate Effect(x: Context, d: Clusters, d': Clusters, off: nat, buf: seq<byte>)
    requires Whole(x.h.ClusterSize(), d) && Whole(x.h.ClusterSize(), d')
  {
    forall r | ValidSlot(x, r) && r.Data? :: ClusterEffect(x, d, d', r, off, buf)
  }

  // ---- one chunk, in virtual offsets ----

  lemma SlotOfCursor(x: Context, v: nat)
    requires Addressable(x.h) && v < x.h.virtualSize
    ensures var r := SlotOf(x.h, v);
            && ValidSlot(x, r) && Addresses(x.h, v, r)
            && Div(v, x.h.ClusterSize()) == Mul(r.i, x.h.L2Entries()) + r.j
            && v == Base(x.h, r) + Mod(v, x.h.ClusterSize())
  {
    hide Mul, Div, Mod;
    AddressInRange(x.h, v);
    var a := SplitVirtual(x.h, v);
    DivModUnique(v, x.h.ClusterSize(), Mul(a.l1Index, x.h.L2Entries()) + a.l2Index, a.offsetInCluster);
  }

  /** Two clusters of the active view that overlap are the same one. */
  lemma OneClusterMeets(x: Context, r: Slot, s: Slot, o: nat, n: nat)
    requires r.Data? && s.Data? && ValidSlot(x, r) && ValidSlot(x, s) && r.k == 0
    requires n > 0 && o + n <= x.h.ClusterSize()
    ensures Meets(x.h, s, Base(x.h, r) + o, n) ==> s == r
  {
    var cs, e := x.h.ClusterSize(), x.h.L2Entries();
    var a, b := Mul(r.i, e) + r.j, Mul(s.i, e) + s.j;
    MulBound(a, b, cs, 0);
    MulBound(b, a, cs, 0);
    assert Mul(a + 1, cs) == cs + Mul(a, cs) && Mul(b + 1, cs) == cs + Mul(b, cs);
    MulMono(a + 1, b, cs);
    MulMono(b + 1, a, cs);
    if a == b {
      DivModUnique(a, e, r.i, r.j);
      DivModUnique(b, e, s.i, s.j);
    }
  }

  lemma ChunkEffect(x: Context, c: Core, c': Core, r: Slot, o: nat, src: seq<byte>)
    requires c.h == x.h && ValidSlot(x, r) && r.Data? && r.k == 0 && o + |src| <= x.h.ClusterSize() && |src| > 0
    requires ChunkDone(x, c, c', r, o, src)
    ensures Effect(x, D(c), D(c'), Base(x.h, r) + o, src)
  {
    hide SlotWord, Content, WellFormed, MemoryOK, ChunkCrash, NewEntry, Base, Slack, Forgotten;
    forall s | ValidSlot(x, s) && s.Data? ensures ClusterEffect(x, D(c), D(c'), s, Base(x.h, r) + o, src) {
      OneClusterMeets(x, r, s, o, |src|);
      if s != r {
        assert Untouched(x, D(c), D(c'), s);
      }
    }
  }

  // ---- putting chunks together ----

  lemma EffectJoin(x: Context, d: Clusters, d1: Clusters, d2: Clusters, off: nat, a: seq<byte>, b: seq<byte>)
    requires Whole(x.h.ClusterSize(), d) && Whole(x.h.ClusterSize(), d1) && Whole(x.h.ClusterSize(), d2)
    requires Effect(x, d, d1, off, a) && Effect(x, d1, d2, off + |a|, b)
    ensures Effect(x, d, d2, off, a + b)
  {
    hide SlotWord, Content, NewEntry, Base;
    forall r | ValidSlot(x, r) && r.Data? ensures ClusterEffect(x, d, d2, r, off, a + b) {
      assert ClusterEffect(x, d, d1, r, off, a) && ClusterEffect(x, d1, d2, r, off + |a|, b);
    }
  }

  lemma EffectNone(x: Context, d: Clusters, d': Clusters, off: nat)
    requires Whole(x.h.ClusterSize(), d) && Whole(x.h.ClusterSize(), d')
    requires forall r | ValidSlot(x, r) && r.Data? :: Untouched(x, d, d', r)
    ensures Effect(x, d, d', off, [])
  {
    hide SlotWord, Content, NewEntry, Base;
    forall r | ValidSlot(x, r) && r.Data? ensures ClusterEffect(x, d, d', r, off, []) {
      assert Untouched(x, d, d', r);
    }
  }

  // ---- crashes ----

  /** The view of r in a crash image m between d and d': wholly the one or wholly the other, or, where the cluster
      was written through, byte by byte the one or the other. */
  ghost predicate BetweenAt(x: Context, d: Clusters, d': Clusters, m: Clusters, r: Slot)
    requires Whole(x.h.ClusterSize(), d) && Whole(x.h.ClusterSize(), d') && Whole(x.h.ClusterSize(), m)
    requires ValidSlot(x, r) && r.Data?
  {
    && Mixed(Content(x, d, r), Content(x, d', r), Content(x, m, r))
    && (SlotWord(x, d', r) != SlotWord(x, d, r) ==>
          Content(x, m, r) == Content(x, d, r) || Content(x, m, r) == Content(x, d', r))
  }

  ghost predicate BetweenImage(x: Context, d: Clusters, d': Clusters, m: seq<byte>)
    requires Whole(x.h.ClusterSize(), d) && Whole(x.h.ClusterSize(), d')
  {
    && WellFormed(x, Cl(x.h, m), |m|) && SameStructures(x, d, Cl(x.h, m))
    && forall r | ValidSlot(x, r) && r.Data? :: BetweenAt(x, d, d', Cl(x.h, m), r)
  }

  /** Stop anywhere between c and c': the image is well-formed and every guest cluster is between the two. */
  ghost predicate CrashSafe(x: Context, c: Core, c': Core)
    requires c.h == x.h && c'.h == x.h
  {
    forall n, m | |c.log| <= n < |c'.log| && CrashImage(c'.log[n], m) :: BetweenImage(x, D(c), D(c'), m)
  }

  lemma ChunkCrashSafe(x: Context, c: Core, c': Core, r: Slot, o: nat, src: seq<byte>)
    requires c.h == x.h && ValidSlot(x, r) && r.Data? && o + |src| <= x.h.ClusterSize()
    requires ChunkDone(x, c, c', r, o, src)
    ensures CrashSafe(x, c, c')
  {
    hide SlotWord, Content, WellFormed, MemoryOK, NewEntry, Slack, Forgotten;
    forall n, m | |c.log| <= n < |c'.log| && CrashImage(c'.log[n], m) ensures BetweenImage(x, D(c), D(c'), m) {
      assert ChunkImage(x, D(c), D(c'), r, m);
    }
  }

  lemma QuietCrashSafe(x: Context, c: Core, c': Core)
    requires c.h == x.h && Quiet(x, c, c')
    ensures CrashSafe(x, c, c')
  {
    hide SlotWord, Content, WellFormed;
    forall n, m | |c.log| <= n < |c'.log| && CrashImage(c'.log[n], m) ensures BetweenImage(x, D(c), D(c'), m) {
      assert ReadsAs(x, D(c), m);
    }
  }

  ghost predicate OneAtMost(x: Context, d: Clusters, d1: Clusters, d2: Clusters)
    requires Whole(x.h.ClusterSize(), d) && Whole(x.h.ClusterSize(), d1) && Whole(x.h.ClusterSize(), d2)
  {
    forall r | ValidSlot(x, r) && r.Data? :: Untouched(x, d, d1, r) || Untouched(x, d1, d2, r)
  }

  lemma BetweenWidens(x: Context, d: Clusters, d1: Clusters, d2: Clusters, m: seq<byte>)
    requires Whole(x.h.ClusterSize(), d) && Whole(x.h.ClusterSize(), d1) && Whole(x.h.ClusterSize(), d2)
    requires OneAtMost(x, d, d1, d2) && SameStructures(x, d, d1)
    requires BetweenImage(x, d, d1, m) || BetweenImage(x, d1, d2, m)
    ensures BetweenImage(x, d, d2, m)
  {
    hide SlotWord, Content, WellFormed;
    forall r | ValidSlot(x, r) && r.Data? ensures BetweenAt(x, d, d2, Cl(x.h, m), r) {
      assert Untouched(x, d, d1, r) || Untouched(x, d1, d2, r);
      assert BetweenAt(x, d, d1, Cl(x.h, m), r) || BetweenAt(x, d1, d2, Cl(x.h, m), r);
    }
  }

  lemma CrashJoin(x: Context, a: Core, b: Core, c: Core)
    requires a.h == x.h && Extends(a, b) && Extends(b, c) && CrashSafe(x, a, b) && CrashSafe(x, b, c)
    requires OneAtMost(x, D(a), D(b), D(c)) && SameStructures(x, D(a), D(b))
    ensures CrashSafe(x, a, c)
  {
    hide OneAtMost, BetweenImage, SameStructures;
    forall n, m | |a.log| <= n < |c.log| && CrashImage(c.log[n], m) ensures BetweenImage(x, D(a), D(c), m) {
      if n < |b.log| { assert c.log[n] == b.log[n]; }
      BetweenWidens(x, D(a), D(b), D(c), m);
    }
  }

  /** A later span that starts past the cluster the first one ended in leaves the first one's clusters alone. */
  lemma ApartSpans(x: Context, d: Clusters, d1: Clusters, d2: Clusters, r: Slot, o: nat, a: seq<byte>, b: seq<byte>)
    requires Whole(x.h.ClusterSize(), d) && Whole(x.h.ClusterSize(), d1) && Whole(x.h.ClusterSize(), d2)
    requires ValidSlot(x, r) && r.Data? && r.k == 0 && |a| > 0 && o + |a| <= x.h.ClusterSize()
    requires o + |a| == x.h.ClusterSize() || b == []
    requires Effect(x, d, d1, Base(x.h, r) + o, a) && Effect(x, d1, d2, Base(x.h, r) + o + |a|, b)
    ensures OneAtMost(x, d, d1, d2)
  {
    hide SlotWord, Content, NewEntry, Base;
    forall s | ValidSlot(x, s) && s.Data? ensures Untouched(x, d, d1, s) || Untouched(x, d1, d2, s) {
      OneClusterMeets(x, r, s, o, |a|);
      assert ClusterEffect(x, d, d1, s, Base(x.h, r) + o, a);
      assert ClusterEffect(x, d1, d2, s, Base(x.h, r) + o + |a|, b);
    }
  }

  // ---- the loop ----

  /** How many bytes of buf the write got through before it ended or was refused: whole chunks only. */
  function Progress(st: State, cursor: nat, buf: seq<byte>): (n: nat)
    requires Paired(st)
    ensures n <= |buf|
    decreases |buf|
  {
    hide WriteChunk, Mul, Div, Mod;
    if buf == [] then 0
    else
      var k := ChunkLen(st.core.h, cursor, |buf|);
      var o := WriteChunk(st, cursor, buf[..k]);
      if o.Bad? then 0 else k + Progress(o.s, cursor + k, buf[k..])
  }

  /** A write that goes through gets through all of it. */
  lemma {:induction false} ProgressWhole(st: State, cursor: nat, buf: seq<byte>)
    requires Paired(st)
    ensures WriteLoop(st, cursor, buf).Good? <==> Progress(st, cursor, buf) == |buf|
    decreases |buf|
  {
    hide WriteChunk, Mul, Div, Mod, ChunkLen;
    if buf != [] {
      var k := ChunkLen(st.core.h, cursor, |buf|);
      var o := WriteChunk(st, cursor, buf[..k]);
      if o.Good? { ProgressWhole(o.s, cursor + k, buf[k..]); }
    }
  }

  /** Everything a run of chunks leaves behind. */
  ghost predicate SpanDone(x: Context, st: State, st': State, off: nat, buf: seq<byte>)
    requires st.core.h == x.h
  {
    && StateOK(x, st') && st'.parents == st.parents && Extends(st.core, st'.core)
    && Effect(x, D(st.core), D(st'.core), off, buf) && SameStructures(x, D(st.core), D(st'.core))
    && CrashSafe(x, st.core, st'.core)
    && forall y: nat :: Slack(MetaOf(x, D(st'.core)), y) >= Slack(MetaOf(x, D(st.core)), y)
  }

  lemma NothingDone(x: Context, st: State, off: nat)
    requires StateOK(x, st)
    ensures SpanDone(x, st, st, off, [])
  {
    hide SlotWord, Content, WellFormed, MemoryOK, CachesOK, ByteUnder, Slack, NewEntry;
    EffectNone(x, D(st.core), D(st.core), off);
  }

  lemma RefusedChunk(x: Context, st: State, st': State, off: nat)
    requires StateOK(x, st) && StateOK(x, st') && st'.parents == st.parents && OnlyLeaks(x, st.core, st'.core)
    ensures SpanDone(x, st, st', off, [])
  {
    hide SlotWord, Content, WellFormed, MemoryOK, CachesOK, ByteUnder, Slack, NewEntry;
    QuietCrashSafe(x, st.core, st'.core);
    EffectNone(x, D(st.core), D(st'.core), off);
  }

  lemma ChunkSpan(x: Context, st: State, st': State, r: Slot, o: nat, src: seq<byte>)
    requires StateOK(x, st) && StateOK(x, st') && st'.parents == st.parents
    requires ValidSlot(x, r) && r.Data? && r.k == 0 && o + |src| <= x.h.ClusterSize() && |src| > 0
    requires ChunkDone(x, st.core, st'.core, r, o, src)
    ensures SpanDone(x, st, st', Base(x.h, r) + o, src)
  {
    hide SlotWord, Content, WellFormed, MemoryOK, CachesOK, ByteUnder, Slack, NewEntry, ChunkCrash, Effect, CrashSafe,
      Forgotten;
    ChunkEffect(x, st.core, st'.core, r, o, src);
    ChunkCrashSafe(x, st.core, st'.core, r, o, src);
  }

  lemma SpanJoin(x: Context, a: State, b: State, c: State, r: Slot, o: nat, s: seq<byte>, t: seq<byte>)
    requires a.core.h == x.h && ValidSlot(x, r) && r.Data? && r.k == 0 && |s| > 0 && o + |s| <= x.h.ClusterSize()
    requires o + |s| == x.h.ClusterSize() || t == []
    requires SpanDone(x, a, b, Base(x.h, r) + o, s) && b.core.h == x.h && SpanDone(x, b, c, Base(x.h, r) + o + |s|, t)
    ensures SpanDone(x, a, c, Base(x.h, r) + o, s + t)
  {
    hide SlotWord, Content, WellFormed, MemoryOK, CachesOK, ByteUnder, Slack, Effect, CrashSafe, Base, OneAtMost;
    EffectJoin(x, D(a.core), D(b.core), D(c.core), Base(x.h, r) + o, s, t);
    ApartSpans(x, D(a.core), D(b.core), D(c.core), r, o, s, t);
    CrashJoin(x, a.core, b.core, c.core);
  }

  /** One chunk of a longer write, and the cluster it meets. */
  lemma ChunkStep(x: Context, st: State, off: nat, buf: seq<byte>)
    requires StateOK(x, st) && buf != [] && off + |buf| <= x.h.virtualSize
    ensures st.core.h == x.h && Paired(st)
    ensures var r, o, k := SlotOf(x.h, off), Mod(off, x.h.ClusterSize()), ChunkLen(x.h, off, |buf|);
            var w := WriteChunk(st, off, buf[..k]);
            && ValidSlot(x, r) && off == Base(x.h, r) + o
            && (k < |buf| ==> o + k == x.h.ClusterSize())
            && StateOK(x, w.s) && w.s.parents == st.parents && w.s.core.h == x.h
            && (w.Good? ==> ChunkDone(x, st.core, w.s.core, r, o, buf[..k]))
            && (w.Bad? ==> OnlyLeaks(x, st.core, w.s.core))
  {
    hide StateOK, WriteChunk, Mul, Div, Mod, ChunkDone, OnlyLeaks, SplitVirtual, Base;
    HeaderOK(x, st);
    SlotOfCursor(x, off);
    var k := ChunkLen(x.h, off, |buf|);
    WriteChunkOK(x, st, off, SlotOf(x.h, off), buf[..k]);
    HeaderOK(x, WriteChunk(st, off, buf[..k]).s);
  }

  /** A write of any length across any mix of clusters, finished or refused part-way. */
  lemma {:induction false} WriteLoopOK(x: Context, st: State, off: nat, buf: seq<byte>)
    requires StateOK(x, st) && off + |buf| <= x.h.virtualSize
    ensures Paired(st) && st.core.h == x.h
    ensures SpanDone(x, st, WriteLoop(st, off, buf).s, off, buf[..Progress(st, off, buf)])
    decreases |buf|
  {
    hide StateOK, SpanDone, WriteChunk, Mul, Div, Mod, Content, ChunkDone, OnlyLeaks, Base, ValidSlot, SlotOf, ChunkLen;
    HeaderOK(x, st);
    if buf == [] {
      NothingDone(x, st, off);
    } else {
      ChunkStep(x, st, off, buf);
      var r, o, k := SlotOf(x.h, off), Mod(off, x.h.ClusterSize()), ChunkLen(x.h, off, |buf|);
      var w := WriteChunk(st, off, buf[..k]);
      if w.Bad? {
        RefusedChunk(x, st, w.s, off);
      } else {
        WriteLoopOK(x, w.s, off + k, buf[k..]);
        AfterChunk(x, st, w.s, WriteLoop(w.s, off + k, buf[k..]).s, off, buf, k, Progress(w.s, off + k, buf[k..]));
      }
    }
  }

  lemma AfterChunk(x: Context, st: State, w: State, rest: State, off: nat, buf: seq<byte>, k: nat, n: nat)
    requires StateOK(x, st) && StateOK(x, w) && w.parents == st.parents && st.core.h == x.h && w.core.h == x.h
    requires var r, o := SlotOf(x.h, off), Mod(off, x.h.ClusterSize());
             && ValidSlot(x, r) && off == Base(x.h, r) + o && 0 < k <= |buf| && o + k <= x.h.ClusterSize()
             && (k < |buf| ==> o + k == x.h.ClusterSize())
             && ChunkDone(x, st.core, w.core, r, o, buf[..k])
    requires n <= |buf[k..]| && SpanDone(x, w, rest, off + k, buf[k..][..n])
    ensures SpanDone(x, st, rest, off, buf[..k + n])
  {
    hide StateOK, SpanDone, Mul, Div, Mod, ChunkDone, Base, ValidSlot, SplitVirtual;
    var r, o := SlotOf(x.h, off), Mod(off, x.h.ClusterSize());
    ChunkSpan(x, st, w, r, o, buf[..k]);
    SpanJoin(x, st, w, rest, r, o, buf[..k], buf[k..][..n]);
    assert buf[..k] + buf[k..][..n] == buf[..k + n];
  }

  lemma HeaderOK(x: Context, st: State)
    requires StateOK(x, st)
    ensures Addressable(x.h) && st.core.h == x.h && Paired(st)
  {
    hide WellFormed, MemoryOK, CachesOK, ByteUnder;
  }

  lemma SpanEffect(x: Context, st: State, st': State, off: nat, buf: seq<byte>)
    requires st.core.h == x.h && SpanDone(x, st, st', off, buf)
    ensures Effect(x, D(st.core), D(st'.core), off, buf) && StateOK(x, st') && st'.core.h == x.h
  {}
}
