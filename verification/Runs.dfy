/** Whole runs: reads, writes of any length, and crashes in the middle of writes, against a plain array of bytes. */
module Runs {
  import opened Bytes
  import opened Arith
  import opened Format
  import opened Accounting
  import opened Disk
  import opened Images
  import opened Engine
  import opened Safety
  import opened Scanning
  import opened Allocator
  import opened Publishing
  import opened Reading
  import opened Chunks
  import opened Writes
  import opened Spans
  import opened Leaks
  import opened Opening
  import opened Structures

  // ---- the guest's disk ----

  /** Every byte of the guest's disk; None is a read error. */
  ghost function Memory(ch: seq<Core>): (m: seq<Option<byte>>)
    requires ch != []
    ensures |m| == ch[0].h.virtualSize
    ensures forall v | 0 <= v < |m| :: m[v] == ByteAt(ch, v)
  {
    seq(ch[0].h.virtualSize, (v: nat) => ByteAt(ch, v))
  }

  /** b laid over m at off, if it fits. */
  ghost function Overlay(m: seq<Option<byte>>, off: nat, b: seq<byte>): (r: seq<Option<byte>>)
    ensures |r| == |m|
  {
    if off + |b| <= |m| then Put(m, off, Known(b)) else m
  }

  lemma ByteAfter(x: Context, st: State, st': State, off: nat, buf: seq<byte>, v: nat)
    requires StateOK(x, st) && st.core.h == x.h && SpanDone(x, st, st', off, buf) && v < x.h.virtualSize
    ensures ByteAt(Chain(st'), v) == if off <= v < off + |buf| then Some(buf[v - off]) else ByteAt(Chain(st), v)
  {
    hide SlotWord, Content, StateOK, ByteAt, CrashSafe, NewEntry, Untouched, Slack, Mul, Div, Mod, ValidSlot, Base,
      Meets, Addresses;
    HeaderOK(x, st);
    HeaderOK(x, st');
    SlotOfCursor(x, v);
    var r := SlotOf(x.h, v);
    GuestByte(x, st, r, v);
    GuestByte(x, st', r, v);
    assert ClusterEffect(x, D(st.core), D(st'.core), r, off, buf);
  }

  lemma MemoryAfter(x: Context, st: State, st': State, off: nat, buf: seq<byte>)
    requires StateOK(x, st) && st.core.h == x.h && SpanDone(x, st, st', off, buf)
    requires off + |buf| <= x.h.virtualSize || buf == []
    ensures Memory(Chain(st')) == Overlay(Memory(Chain(st)), off, buf)
  {
    hide StateOK, ByteAt, Effect, CrashSafe;
    HeaderOK(x, st');
    forall v | 0 <= v < x.h.virtualSize ensures Memory(Chain(st'))[v] == Overlay(Memory(Chain(st)), off, buf)[v] {
      ByteAfter(x, st, st', off, buf, v);
    }
  }

  // ---- a write call ----

  /** How many bytes of buf a write call took. */
  function Taken(st: State, writable: bool, off: nat, buf: seq<byte>): (n: nat)
    requires Paired(st)
    ensures n <= |buf|
  {
    if !writable || off + |buf| >= 0x1_0000_0000_0000_0000 || off + |buf| > st.core.h.virtualSize then 0
    else Progress(st, off, buf)
  }

  lemma ChunkEnd(cs: nat, cursor: nat, k: nat)
    requires cs > 0 && Mod(cursor, cs) + k == cs
    ensures Mod(cursor + k, cs) == 0
  {
    hide Div, Mod, Mul;
    DivMod(cursor, cs);
    MulNext(Div(cursor, cs), cs);
    DivModUnique(cursor + k, cs, Div(cursor, cs) + 1, 0);
  }

  /** A write stops only between whole chunks: at its end, or at a cluster boundary. */
  lemma {:induction false} ProgressAligned(x: Context, st: State, off: nat, buf: seq<byte>)
    requires StateOK(x, st) && off + |buf| <= x.h.virtualSize
    ensures Paired(st)
    ensures var n := Progress(st, off, buf);
            n == 0 || n == |buf| || Mod(off + n, x.h.ClusterSize()) == 0
    decreases |buf|
  {
    hide StateOK, WriteChunk, Mul, Div, Mod, ChunkDone, OnlyLeaks, Base, ValidSlot, SlotOf, ChunkLen;
    HeaderOK(x, st);
    if buf != [] {
      ChunkStep(x, st, off, buf);
      var k := ChunkLen(x.h, off, |buf|);
      var w := WriteChunk(st, off, buf[..k]);
      if w.Good? {
        ProgressAligned(x, w.s, off + k, buf[k..]);
        if k < |buf| { ChunkEnd(x.h.ClusterSize(), off, k); }
      }
    }
  }

  /** A write call, in any state of the disk: the bytes it took are there, nothing else moved in any table of any
      snapshot, every crash on the way leaves a sound image, and it stops early only at a cluster boundary. */
  lemma WriteAtOK(x: Context, st: State, writable: bool, off: nat, buf: seq<byte>)
    requires StateOK(x, st)
    ensures Paired(st) && st.core.h == x.h
    ensures var w, n := WriteAt(st, writable, off, buf), Taken(st, writable, off, buf);
            && (n == 0 || n == |buf| || Mod(off + n, x.h.ClusterSize()) == 0)
            && (w.Good? <==> writable && n == |buf|)
            && SpanDone(x, st, w.s, off, buf[..n])
            && Memory(Chain(w.s)) == Overlay(Memory(Chain(st)), off, buf[..n])
  {
    hide StateOK, SpanDone, WriteLoop, Progress, Memory, Overlay, Mod;
    HeaderOK(x, st);
    var n := Taken(st, writable, off, buf);
    var w := WriteAt(st, writable, off, buf);
    if !writable || buf == [] || off + |buf| > x.h.virtualSize || off + |buf| >= 0x1_0000_0000_0000_0000 {
      NothingDone(x, st, off);
      assert buf[..n] == [];
    } else {
      WriteLoopOK(x, st, off, buf);
      ProgressWhole(st, off, buf);
      ProgressAligned(x, st, off, buf);
    }
    MemoryAfter(x, st, w.s, off, buf[..n]);
  }

  /** Where refcounts equal references, a write call that goes through keeps them equal exactly when the writer
      releases all that the entries it overwrites name. */
  lemma WriteAtConserves(x: Context, st: State, off: nat, buf: seq<byte>)
    requires StateOK(x, st) && Paired(st) && WriteAt(st, true, off, buf).Good? && Balanced(x, D(st.core))
    ensures Balanced(x, D(WriteAt(st, true, off, buf).s.core)) <==> LeavesNothing(x, D(st.core), off, |buf|)
  {
    hide StateOK, WriteLoop, Balanced, Releasable, SlotWord;
    HeaderOK(x, st);
    if buf != [] { Conservation(x, st, off, buf); }
  }

  // ---- opening, and opening again after a crash ----

  lemma OpenedWord(x: Context, m: seq<byte>, i: nat)
    requires Addressable(x.h) && WellFormed(x, Cl(x.h, m), |m|) && i < x.h.l1Size
    requires x.h.l1TableOffset + 8 * x.h.l1Size <= |m|
    ensures ReadL1(x.h, m)[i] == SlotWord(x, Cl(x.h, m), Table(0, i))
  {
    hide Inv, SlotWord, Legal, Mul, Div, Decode, AddressOf, Home, Cl, MetaOf, Slice, Word;
    L1Address(x, Cl(x.h, m), i);
    ReadSlot(x, m, |m|, Table(0, i));
    WordOfSlice(m, x.h.l1TableOffset, x.h.l1Size, i);
  }

  /** A well-formed image opens, into a state the run can go on from. */
  lemma OpenOK(x: Context, cap: nat, m: seq<byte>, writable: bool)
    requires Addressable(x.h) && WellFormed(x, Cl(x.h, m), |m|) && |m| <= cap < BIT_56
    requires Describes(x, Cl(x.h, m), writable)
    ensures var c := OpenImage(Image(m, x.codec, cap), writable);
            c.Ok? && CoreOK(x, c.value) && D(c.value) == Cl(x.h, m)
  {
    hide Inv, SlotWord, LegalWord, Cl, MetaOf, CountOf, Present, ReadHeader, Describes;
    HeaderRead(x, m, writable);
    forall i | 0 <= i < x.h.l1Size ensures ReadL1(x.h, m)[i] == SlotWord(x, Cl(x.h, m), Table(0, i)) {
      OpenedWord(x, m, i);
    }
  }

  function Emptied(ca: seq<Cache>): (r: seq<Cache>)
    ensures |r| == |ca|
  {
    seq(|ca|, _ => Cache(None, None))
  }

  /** The run that finds m on the device: the image is opened from its bytes, and everything in memory starts over. */
  function Reopen(st: State, writable: bool, m: seq<byte>): (r: Result<State>)
    requires Paired(st)
    ensures r.Ok? ==> Paired(r.value)
  {
    var c :- OpenImage(Image(m, st.core.codec, st.core.cap), writable);
    Ok(State(c, st.parents, Emptied(st.caches)))
  }

  lemma ReopenOK(x: Context, st: State, writable: bool, m: seq<byte>)
    requires StateOK(x, st) && WellFormed(x, Cl(x.h, m), |m|) && |m| <= st.core.cap
    requires Describes(x, Cl(x.h, m), writable)
    ensures Paired(st)
    ensures var r := Reopen(st, writable, m);
            r.Ok? && StateOK(x, r.value) && r.value.parents == st.parents && D(r.value.core) == Cl(x.h, m)
  {
    hide WellFormed, MemoryOK, CacheOK, ByteUnder, Cl, OpenImage, Describes;
    StateMeans(x, st);
    OpenOK(x, st.core.cap, m, writable);
    hide DeviceOK;
    var st' := Reopen(st, writable, m).value;
    forall i | 0 <= i < 1 + |st.parents| ensures CacheOK(Chain(st')[i], st'.caches[i]) {
      assert CacheOK(Chain(st)[i], st.caches[i]);
      NoCache(Chain(st)[i], st.caches[i]);
      EmptyCache(x, st'.core);
    }
  }

  lemma NoCache(c: Core, ca: Cache)
    requires CacheOK(c, ca)
    ensures CacheOK(c, Cache(None, None))
  {}

  // ---- a crash in the middle of a write call ----

  /** Image m is what some crash during the call leaves, the device being no larger than its limit. */
  ghost predicate CutBy(st: State, writable: bool, off: nat, buf: seq<byte>, step: nat, m: seq<byte>)
    requires Paired(st)
  {
    var w := WriteAt(st, writable, off, buf).s.core;
    |st.core.log| <= step < |w.log| && CrashImage(w.log[step], m) && |m| <= st.core.cap
  }

  /** After a crash the image opens from its own bytes, with the same header and the same list of snapshots, and each
      guest byte is what it was before the call or what the call made it. */
  lemma CutOK(x: Context, st: State, writable: bool, off: nat, buf: seq<byte>, step: nat, m: seq<byte>)
    requires StateOK(x, st) && Paired(st) && Describes(x, D(st.core), writable)
    requires CutBy(st, writable, off, buf, step, m)
    ensures st.core.h == x.h && WriteAt(st, writable, off, buf).s.core.h == x.h
    ensures ReadHeader(m, writable) == Ok(x.h) && Describes(x, Cl(x.h, m), writable)
    ensures var r, n := Reopen(st, writable, m), Taken(st, writable, off, buf);
            && r.Ok? && StateOK(x, r.value) && r.value.parents == st.parents && D(r.value.core) == Cl(x.h, m)
            && BetweenImage(x, D(st.core), D(WriteAt(st, writable, off, buf).s.core), m)
            && MixedMemory(Memory(Chain(st)), Overlay(Memory(Chain(st)), off, buf[..n]), Memory(Chain(r.value)))
  {
    hide StateOK, WriteLoop, Memory, Overlay, BetweenAt, Inv, LegalWord, CrashImage, Cl, Effect, Describes, ReadHeader,
      SameStructures, MetaOf;
    HeaderOK(x, st);
    WriteAtOK(x, st, writable, off, buf);
    var w := WriteAt(st, writable, off, buf).s;
    assert BetweenImage(x, D(st.core), D(w.core), m);
    hide SpanDone;
    DescribesKept(x, D(st.core), Cl(x.h, m), writable);
    HeaderRead(x, m, writable);
    ReopenOK(x, st, writable, m);
    MemoryBetween(x, st, w, Reopen(st, writable, m).value, m);
  }

  ghost predicate MixedMemory(a: seq<Option<byte>>, b: seq<Option<byte>>, m: seq<Option<byte>>) {
    |a| == |b| == |m| && forall v | 0 <= v < |m| :: m[v] == a[v] || m[v] == b[v]
  }

  lemma MemoryBetween(x: Context, st: State, st': State, cut: State, m: seq<byte>)
    requires StateOK(x, st) && StateOK(x, st') && StateOK(x, cut)
    requires st.core.h == x.h && st'.core.h == x.h && cut.core.h == x.h
    requires BetweenImage(x, D(st.core), D(st'.core), m) && D(cut.core) == Cl(x.h, m)
    ensures MixedMemory(Memory(Chain(st)), Memory(Chain(st')), Memory(Chain(cut)))
  {
    hide SlotWord, Content, StateOK, ByteAt, Mul, Div, Mod, ValidSlot, Base, Addresses, WellFormed, Cl;
    HeaderOK(x, st);
    forall v | 0 <= v < x.h.virtualSize
      ensures ByteAt(Chain(cut), v) == ByteAt(Chain(st), v) || ByteAt(Chain(cut), v) == ByteAt(Chain(st'), v)
    {
      SlotOfCursor(x, v);
      var r := SlotOf(x.h, v);
      GuestByte(x, st, r, v);
      GuestByte(x, st', r, v);
      GuestByte(x, cut, r, v);
      assert BetweenAt(x, D(st.core), D(st'.core), Cl(x.h, m), r);
    }
  }
}
