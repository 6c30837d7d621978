/** How much a write leaks, exactly. */
module Leaks {
  import opened Bytes
  import opened Arith
  import opened Format
  import opened Accounting
  import opened Disk
  import opened Images
  import opened Engine
  import opened Safety
  import opened Allocator
  import opened Publishing
  import opened Chunks
  import opened Writes
  import opened Spans

  /** The L2 entries of the span that leave host cluster y behind. */
  ghost function Leaving(x: Context, d: Clusters, off: nat, n: nat, y: nat): set<Slot> {
    set r | r in Slots(x) && r.Data? && Meets(x.h, r, off, n) && Forgotten(x.h, SlotWord(x, d, r), y)
  }

  /** Every cluster's slack grew by one for each overwritten entry that left it behind, and that of the cluster lost by
      one more. */
  ghost predicate LeakedExactly(x: Context, d: Clusters, d': Clusters, off: nat, n: nat, lost: Option<nat>) {
    forall y: nat ::
      Slack(MetaOf(x, d'), y) == Slack(MetaOf(x, d), y) + |Leaving(x, d, off, n, y)| + Bit(lost == Some(y))
  }

  lemma LeavingNothing(x: Context, d: Clusters, off: nat, y: nat)
    ensures Leaving(x, d, off, 0, y) == {}
  {}

  lemma LeavingOne(x: Context, d: Clusters, r: Slot, o: nat, n: nat, y: nat)
    requires ValidSlot(x, r) && r.Data? && r.k == 0 && n > 0 && o + n <= x.h.ClusterSize()
    ensures Leaving(x, d, Base(x.h, r) + o, n, y) == if Forgotten(x.h, SlotWord(x, d, r), y) then {r} else {}
  {
    hide SlotWord, Forgotten, Base;
    var off := Base(x.h, r) + o;
    assert Meets(x.h, r, off, n);
    forall s | s in Leaving(x, d, off, n, y) ensures s == r { OneClusterMeets(x, r, s, o, n); }
  }

  /** A chunk of r's cluster and what follows it: s meets one of them or none. */
  lemma MeetsSplit(x: Context, r: Slot, s: Slot, o: nat, k: nat, n: nat)
    requires r.Data? && s.Data? && ValidSlot(x, r) && ValidSlot(x, s) && r.k == 0
    requires k > 0 && o + k <= x.h.ClusterSize() && (o + k == x.h.ClusterSize() || n == 0)
    ensures var off := Base(x.h, r) + o;
            && (Meets(x.h, s, off, k + n) <==> Meets(x.h, s, off, k) || Meets(x.h, s, off + k, n))
            && !(Meets(x.h, s, off, k) && Meets(x.h, s, off + k, n))
  {
    hide Base;
    OneClusterMeets(x, r, s, o, k);
  }

  lemma LeavingMember(x: Context, d: Clusters, d1: Clusters, r: Slot, o: nat, src: seq<byte>, n: nat, y: nat, s: Slot)
    requires Whole(x.h.ClusterSize(), d) && Whole(x.h.ClusterSize(), d1)
    requires ValidSlot(x, r) && r.Data? && r.k == 0 && |src| > 0 && o + |src| <= x.h.ClusterSize()
    requires o + |src| == x.h.ClusterSize() || n == 0
    requires Effect(x, d, d1, Base(x.h, r) + o, src)
    ensures var off := Base(x.h, r) + o;
            var a, b := Leaving(x, d, off, |src|, y), Leaving(x, d1, off + |src|, n, y);
            (s in Leaving(x, d, off, |src| + n, y) <==> s in a || s in b) && !(s in a && s in b)
  {
    hide SlotWord, Content, NewEntry, Base, Forgotten, Meets, NewByte, ValidSlot;
    if ValidSlot(x, s) && s.Data? {
      MeetsSplit(x, r, s, o, |src|, n);
      assert ClusterEffect(x, d, d1, s, Base(x.h, r) + o, src);
    }
  }

  lemma LeavingSplit(x: Context, d: Clusters, d1: Clusters, r: Slot, o: nat, src: seq<byte>, n: nat, y: nat)
    requires Whole(x.h.ClusterSize(), d) && Whole(x.h.ClusterSize(), d1)
    requires ValidSlot(x, r) && r.Data? && r.k == 0 && |src| > 0 && o + |src| <= x.h.ClusterSize()
    requires o + |src| == x.h.ClusterSize() || n == 0
    requires Effect(x, d, d1, Base(x.h, r) + o, src)
    ensures |Leaving(x, d, Base(x.h, r) + o, |src| + n, y)|
         == |Leaving(x, d, Base(x.h, r) + o, |src|, y)| + |Leaving(x, d1, Base(x.h, r) + o + |src|, n, y)|
  {
    hide Leaving, Base, Effect, ValidSlot, Whole;
    var off := Base(x.h, r) + o;
    var a, b := Leaving(x, d, off, |src|, y), Leaving(x, d1, off + |src|, n, y);
    forall s ensures (s in Leaving(x, d, off, |src| + n, y) <==> s in a || s in b) && !(s in a && s in b) {
      LeavingMember(x, d, d1, r, o, src, n, y, s);
    }
    assert Leaving(x, d, off, |src| + n, y) == a + b && a !! b;
  }

  lemma ChunkLeaks(x: Context, c: Core, c': Core, r: Slot, o: nat, src: seq<byte>)
    requires c.h == x.h && ValidSlot(x, r) && r.Data? && r.k == 0 && o + |src| <= x.h.ClusterSize() && |src| > 0
    requires ChunkDone(x, c, c', r, o, src)
    ensures LeakedExactly(x, D(c), D(c'), Base(x.h, r) + o, |src|, None)
  {
    hide SlotWord, Content, WellFormed, MemoryOK, ChunkCrash, NewEntry, Forgotten, Slack, MetaOf, Base, Leaving;
    forall y: nat
      ensures |Leaving(x, D(c), Base(x.h, r) + o, |src|, y)| == Bit(Forgotten(x.h, SlotWord(x, D(c), r), y))
    {
      LeavingOne(x, D(c), r, o, |src|, y);
    }
  }

  lemma RefusedLeaks(x: Context, c: Core, c': Core, off: nat) returns (lost: Option<nat>)
    requires c.h == x.h && OnlyLeaks(x, c, c')
    ensures LeakedExactly(x, D(c), D(c'), off, 0, lost)
  {
    hide SlotWord, Content, WellFormed, MemoryOK, Slack, MetaOf;
    lost :| LeaksJust(x, D(c), D(c'), lost);
    forall y: nat ensures Leaving(x, D(c), off, 0, y) == {} { LeavingNothing(x, D(c), off, y); }
  }

  lemma LeaksJoin(
    x: Context, st: State, w: State, d2: Clusters, off: nat, buf: seq<byte>, k: nat, n: nat, lost: Option<nat>)
    requires StateOK(x, st) && StateOK(x, w) && w.parents == st.parents && st.core.h == x.h && w.core.h == x.h
    requires var r, o := SlotOf(x.h, off), Mod(off, x.h.ClusterSize());
             && ValidSlot(x, r) && off == Base(x.h, r) + o && 0 < k <= |buf| && o + k <= x.h.ClusterSize()
             && (k < |buf| ==> o + k == x.h.ClusterSize())
             && ChunkDone(x, st.core, w.core, r, o, buf[..k])
    requires k + n <= |buf| && LeakedExactly(x, D(w.core), d2, off + k, n, lost)
    ensures LeakedExactly(x, D(st.core), d2, off, k + n, lost)
  {
    hide StateOK, SpanDone, Mul, Div, Mod, ChunkDone, Base, ValidSlot, SplitVirtual, Slack, MetaOf, Leaving, Effect;
    var r, o := SlotOf(x.h, off), Mod(off, x.h.ClusterSize());
    ChunkLeaks(x, st.core, w.core, r, o, buf[..k]);
    ChunkSpan(x, st, w, r, o, buf[..k]);
    SpanEffect(x, st, w, off, buf[..k]);
    forall y: nat
      ensures |Leaving(x, D(st.core), off, k + n, y)|
           == |Leaving(x, D(st.core), off, k, y)| + |Leaving(x, D(w.core), off + k, n, y)|
    {
      LeavingSplit(x, D(st.core), D(w.core), r, o, buf[..k], n, y);
    }
  }

  /** A write leaks the clusters its overwritten entries leave behind, and one share of one more when it is refused:
      never anything else. */
  lemma {:induction false} WriteLeaks(x: Context, st: State, off: nat, buf: seq<byte>) returns (lost: Option<nat>)
    requires StateOK(x, st) && off + |buf| <= x.h.virtualSize
    ensures Paired(st)
    ensures var w := WriteLoop(st, off, buf);
            LeakedExactly(x, D(st.core), D(w.s.core), off, Progress(st, off, buf), lost) && (w.Good? ==> lost == None)
    decreases |buf|
  {
    hide StateOK, WriteChunk, Mul, Div, Mod, Content, ChunkDone, OnlyLeaks, Base, ValidSlot, SlotOf, ChunkLen,
      LeakedExactly;
    HeaderOK(x, st);
    if buf == [] {
      NoWriteLeaks(x, D(st.core), off);
      lost := None;
    } else {
      ChunkStep(x, st, off, buf);
      var k := ChunkLen(x.h, off, |buf|);
      var w := WriteChunk(st, off, buf[..k]);
      if w.Bad? {
        lost := RefusedLeaks(x, st.core, w.s.core, off);
      } else {
        lost := WriteLeaks(x, w.s, off + k, buf[k..]);
        var rest, n := WriteLoop(w.s, off + k, buf[k..]), Progress(w.s, off + k, buf[k..]);
        LeaksJoin(x, st, w.s, D(rest.s.core), off, buf, k, n, lost);
      }
    }
  }

  lemma NoWriteLeaks(x: Context, d: Clusters, off: nat)
    ensures LeakedExactly(x, d, d, off, 0, None)
  {
    hide Slack, MetaOf;
    forall y: nat ensures Leaving(x, d, off, 0, y) == {} { LeavingNothing(x, d, off, y); }
  }

  // ---- conservation ----

  /** Every refcount is exactly the number of references. */
  ghost predicate Balanced(x: Context, d: Clusters) {
    forall y: nat :: Slack(MetaOf(x, d), y) == 0
  }

  /** An L2 entry that is neither a compressed span across host clusters nor a zero flag with a host offset. */
  predicate Releasable(h: Header, w: nat) {
    if Compressed(w) then
      var (off, span) := DecodeDescriptor(w, h.clusterBits);
      Div(off, h.ClusterSize()) == Div(off + span - 1, h.ClusterSize())
    else !(h.version >= 3 && ZeroFlag(w) && HostOffset(w) != 0)
  }

  lemma ReleasableMeans(h: Header, w: nat)
    ensures Releasable(h, w) <==> forall y: nat :: !Forgotten(h, w, y)
  {
    hide Compressed, ZeroFlag, HostOffset, Div, DecodeDescriptor;
    if Compressed(w) {
      var (off, span) := DecodeDescriptor(w, h.clusterBits);
      DivMono(off, off + span - 1, h.ClusterSize());
      assert Forgotten(h, w, Div(off + span - 1, h.ClusterSize())) || Releasable(h, w);
    } else if !Releasable(h, w) {
      assert Forgotten(h, w, Div(HostOffset(w), h.ClusterSize()));
    }
  }

  /** The writer releases every host cluster that the L2 entries of the span name. */
  ghost predicate LeavesNothing(x: Context, d: Clusters, off: nat, n: nat) {
    forall r | ValidSlot(x, r) && r.Data? && Meets(x.h, r, off, n) :: Releasable(x.h, SlotWord(x, d, r))
  }

  lemma LeavingReleasable(x: Context, d: Clusters, off: nat, n: nat)
    ensures LeavesNothing(x, d, off, n) <==> forall y: nat :: Leaving(x, d, off, n, y) == {}
  {
    hide SlotWord, Forgotten, Releasable, Meets;
    if forall y: nat :: Leaving(x, d, off, n, y) == {} {
      forall r | ValidSlot(x, r) && r.Data? && Meets(x.h, r, off, n) ensures Releasable(x.h, SlotWord(x, d, r)) {
        ReleasableMeans(x.h, SlotWord(x, d, r));
        forall y: nat ensures !Forgotten(x.h, SlotWord(x, d, r), y) {
          assert r !in Leaving(x, d, off, n, y);
        }
      }
    }
    if LeavesNothing(x, d, off, n) {
      forall y: nat ensures Leaving(x, d, off, n, y) == {} {
        forall r | r in Leaving(x, d, off, n, y) ensures false { ReleasableMeans(x.h, SlotWord(x, d, r)); }
      }
    }
  }

  /** Where refcounts equal references, a write that goes through keeps them equal exactly when no entry it
      overwrote was a compressed span across host clusters or a zero flag with a host offset. */
  lemma Conservation(x: Context, st: State, off: nat, buf: seq<byte>)
    requires StateOK(x, st) && off + |buf| <= x.h.virtualSize && Balanced(x, D(st.core))
    requires Paired(st) && WriteLoop(st, off, buf).Good?
    ensures Balanced(x, D(WriteLoop(st, off, buf).s.core)) <==> LeavesNothing(x, D(st.core), off, |buf|)
  {
    hide StateOK, WriteLoop, Progress, Slack, MetaOf, LeavesNothing, Leaving, D;
    var lost := WriteLeaks(x, st, off, buf);
    ProgressWhole(st, off, buf);
    LeavingReleasable(x, D(st.core), off, |buf|);
    var d, d' := D(st.core), D(WriteLoop(st, off, buf).s.core);
    forall y: nat ensures Slack(MetaOf(x, d'), y) == 0 <==> Leaving(x, d, off, |buf|, y) == {} {
      assert Slack(MetaOf(x, d), y) == 0;
    }
  }
}
