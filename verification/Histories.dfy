/** Histories of reads, writes and crashes: what the guest and the snapshots see, with the caches and without. */
module Histories {
  import opened Bytes
  import opened Arith
  import opened Format
  import opened Accounting
  import opened Disk
  import opened Images
  import opened Engine
  import opened Safety
  import opened Allocator
  import opened Publishing
  import opened Reading
  import opened Chunks
  import opened Spans
  import opened Uncached
  import opened Opening
  import opened Structures
  import opened Runs

  /** A read call, a write call, or a write call cut short at one of its device steps with image on the device. */
  datatype Event =
    | Read(off: nat, n: nat)
    | Write(off: nat, buf: seq<byte>)
    | Crash(off: nat, buf: seq<byte>, step: nat, image: seq<byte>)

  datatype Answer = Got(bytes: Result<seq<byte>>) | Written(done: Result<()>) | Reopened(done: Result<()>)

  function After(st: State, writable: bool, ev: Event): (r: (State, Answer))
    requires Paired(st)
    ensures Paired(r.0)
  {
    match ev
    case Read(off, n) =>
      var r := ReadAt([st.core] + st.parents, st.caches, off, n);
      (st.(caches := r.s), Got(r.Outcome()))
    case Write(off, buf) =>
      var w := WriteAt(st, writable, off, buf);
      (w.s, Written(w.Outcome()))
    case Crash(_, _, _, image) =>
      match Reopen(st, writable, image)
      case Ok(again) => (again, Reopened(Ok(())))
      case Err(e) => (st, Reopened(Err(e)))
  }

  ghost predicate CanHappen(st: State, writable: bool, ev: Event)
    requires Paired(st)
  {
    ev.Crash? ==> CutBy(st, writable, ev.off, ev.buf, ev.step, ev.image)
  }

  ghost predicate History(st: State, writable: bool, evs: seq<Event>)
    requires Paired(st)
    decreases |evs|
  {
    evs == [] || (CanHappen(st, writable, evs[0]) && History(After(st, writable, evs[0]).0, writable, evs[1..]))
  }

  function Run(st: State, writable: bool, evs: seq<Event>): (r: (State, seq<Answer>))
    requires Paired(st)
    ensures Paired(r.0)
    decreases |evs|
  {
    if evs == [] then (st, [])
    else
      var (st1, a) := After(st, writable, evs[0]);
      var (st2, rest) := Run(st1, writable, evs[1..]);
      (st2, [a] + rest)
  }

  // ---- an array of bytes ----

  /** Exactly the bytes of the range, or an error where the range leaves the disk or has an unreadable byte. */
  ghost predicate ReadAnswer(mem: seq<Option<byte>>, off: nat, n: nat, r: Result<seq<byte>>) {
    match r
    case Ok(b) => |b| == n && (n == 0 || (off + n <= |mem| && mem[off..off + n] == Known(b)))
    case Err(_) => n > 0 && (off + n > |mem| || exists v | off <= v < off + n :: mem[v] == None)
  }

  /** All of buf written, or, when the call is refused, a prefix of whole clusters. */
  ghost predicate WriteAnswer(h: Header, writable: bool, mem: seq<Option<byte>>, off: nat, buf: seq<byte>,
                              r: Result<()>, mem': seq<Option<byte>>)
  {
    && (r.Ok? ==> writable && (buf == [] || off + |buf| <= |mem|) && mem' == Overlay(mem, off, buf))
    && (r.Err? ==> !writable || exists n | 0 <= n < |buf| :: PrefixOnly(h, mem, off, buf[..n], mem'))
    && (!writable || off + |buf| > |mem| ==> mem' == mem)
  }

  ghost predicate PrefixOnly(h: Header, mem: seq<Option<byte>>, off: nat, b: seq<byte>, mem': seq<Option<byte>>) {
    mem' == Overlay(mem, off, b) && (b == [] || Mod(off + |b|, h.ClusterSize()) == 0)
  }

  ghost predicate Obeys(h: Header, writable: bool, mem: seq<Option<byte>>, ev: Event, a: Answer,
                        mem': seq<Option<byte>>)
  {
    match ev
    case Read(off, n) => mem' == mem && a.Got? && ReadAnswer(mem, off, n, a.bytes)
    case Write(off, buf) => a.Written? && WriteAnswer(h, writable, mem, off, buf, a.done, mem')
    case Crash(off, buf, _, _) =>
      a == Reopened(Ok(())) && exists n | 0 <= n <= |buf| :: MixedMemory(mem, Overlay(mem, off, buf[..n]), mem')
  }

  ghost predicate Behaves(h: Header, writable: bool, mem: seq<Option<byte>>, evs: seq<Event>, answers: seq<Answer>,
                          mem': seq<Option<byte>>)
    decreases |evs|
  {
    if evs == [] then answers == [] && mem' == mem
    else
      && answers != []
      && exists m1 :: Obeys(h, writable, mem, evs[0], answers[0], m1)
                   && Behaves(h, writable, m1, evs[1..], answers[1..], mem')
  }

  /** Nothing changed through any L1 table but the active one, nor in the header, the snapshot table and those
      tables. */
  ghost predicate SnapshotsKept(x: Context, d: Clusters, d': Clusters)
    requires Whole(x.h.ClusterSize(), d) && Whole(x.h.ClusterSize(), d')
  {
    && SameStructures(x, d, d')
    && forall r | ValidSlot(x, r) && r.Data? && r.k > 0 :: Content(x, d', r) == Content(x, d, r)
  }

  // ---- one event ----

  lemma ReadOK(x: Context, st: State, off: nat, n: nat)
    requires StateOK(x, st) && Paired(st)
    ensures var r := ReadAt(Chain(st), st.caches, off, n);
            && ReadAnswer(Memory(Chain(st)), off, n, r.Outcome())
            && StateOK(x, st.(caches := r.s))
  {
    hide CacheOK, ByteAt, ByteUnder, CoreOK, ReadLoop;
    HeaderOK(x, st);
    var ch, mem := Chain(st), Memory(Chain(st));
    if off + n <= x.h.virtualSize {
      ReadAtOK(ch, st.caches, off, n);
      var r := ReadAt(ch, st.caches, off, n);
      if r.Good? {
        forall o | 0 <= o < n ensures mem[off..off + n][o] == Known(r.v)[o] {
          assert ByteAt(ch, off + o) == Some(r.v[o]);
        }
      } else {
        var p :| off <= p < off + n && ByteAt(ch, p) == None;
        assert mem[p] == None;
      }
    }
  }

  lemma SpanKeepsSnapshots(x: Context, st: State, st': State, off: nat, buf: seq<byte>)
    requires StateOK(x, st) && st.core.h == x.h && SpanDone(x, st, st', off, buf)
    ensures SnapshotsKept(x, D(st.core), D(st'.core))
  {
    hide SlotWord, Content, StateOK, CrashSafe, NewEntry, Slack, Base, NewByte;
    forall r | ValidSlot(x, r) && r.Data? && r.k > 0 ensures Content(x, D(st'.core), r) == Content(x, D(st.core), r) {
      assert ClusterEffect(x, D(st.core), D(st'.core), r, off, buf);
    }
  }

  lemma CrashKeepsSnapshots(x: Context, d: Clusters, d': Clusters, m: seq<byte>)
    requires Whole(x.h.ClusterSize(), d) && Whole(x.h.ClusterSize(), d')
    requires SnapshotsKept(x, d, d') && BetweenImage(x, d, d', m)
    ensures SnapshotsKept(x, d, Cl(x.h, m))
  {
    hide SlotWord, Content, WellFormed, Cl;
    forall r | ValidSlot(x, r) && r.Data? && r.k > 0 ensures Content(x, Cl(x.h, m), r) == Content(x, d, r) {
      assert BetweenAt(x, d, d', Cl(x.h, m), r);
    }
  }

  lemma WriteOK(x: Context, st: State, writable: bool, off: nat, buf: seq<byte>)
    requires StateOK(x, st) && Paired(st)
    ensures st.core.h == x.h && WriteAt(st, writable, off, buf).s.core.h == x.h
    ensures var w := WriteAt(st, writable, off, buf);
            && StateOK(x, w.s) && w.s.parents == st.parents
            && WriteAnswer(x.h, writable, Memory(Chain(st)), off, buf, w.Outcome(), Memory(Chain(w.s)))
            && SnapshotsKept(x, D(st.core), D(w.s.core))
  {
    hide StateOK, Memory, Overlay, Mod, CrashSafe, Effect, Slack, Progress, WriteLoop;
    WriteAtOK(x, st, writable, off, buf);
    var w, n := WriteAt(st, writable, off, buf), Taken(st, writable, off, buf);
    SpanEffect(x, st, w.s, off, buf[..n]);
    SpanKeepsSnapshots(x, st, w.s, off, buf[..n]);
    NoOverlay(Memory(Chain(st)), off);
    assert buf[..|buf|] == buf;
    if w.Bad? && writable {
      assert PrefixOnly(x.h, Memory(Chain(st)), off, buf[..n], Memory(Chain(w.s)));
    }
  }

  lemma NoOverlay(mem: seq<Option<byte>>, off: nat)
    ensures Overlay(mem, off, []) == mem
  {}

  lemma EventOK(x: Context, st: State, writable: bool, ev: Event)
    requires StateOK(x, st) && Paired(st) && Describes(x, D(st.core), writable) && CanHappen(st, writable, ev)
    ensures var r := After(st, writable, ev);
            && StateOK(x, r.0) && r.0.parents == st.parents && r.0.core.h == st.core.h == x.h
            && Obeys(x.h, writable, Memory(Chain(st)), ev, r.1, Memory(Chain(r.0)))
            && SnapshotsKept(x, D(st.core), D(r.0.core)) && Describes(x, D(r.0.core), writable)
  {
    hide StateOK, Memory, Overlay, WriteAt, ReadAt, ReadAnswer, WriteAnswer, SnapshotsKept, CutBy, Reopen,
      BetweenImage, Cl;
    HeaderOK(x, st);
    match ev
    case Read(off, n) =>
      ReadOK(x, st, off, n);
      SameChain(st, ReadAt(Chain(st), st.caches, off, n).s);
      SnapshotsSelf(x, D(st.core));
    case Write(off, buf) =>
      WriteOK(x, st, writable, off, buf);
      KeptDescribes(x, D(st.core), D(WriteAt(st, writable, off, buf).s.core), writable);
    case Crash(off, buf, step, m) =>
      WriteOK(x, st, writable, off, buf);
      CutOK(x, st, writable, off, buf, step, m);
      CrashKeepsSnapshots(x, D(st.core), D(WriteAt(st, writable, off, buf).s.core), m);
      HeaderOK(x, Reopen(st, writable, m).value);
      KeptDescribes(x, D(st.core), Cl(x.h, m), writable);
  }

  lemma KeptDescribes(x: Context, d: Clusters, d': Clusters, writable: bool)
    requires Addressable(x.h) && Whole(x.h.ClusterSize(), d) && Whole(x.h.ClusterSize(), d')
    requires SnapshotsKept(x, d, d') && Describes(x, d, writable)
    ensures Describes(x, d', writable)
  {
    hide Content, Describes;
    DescribesKept(x, d, d', writable);
  }

  lemma SameChain(st: State, ca: seq<Cache>)
    ensures Chain(st.(caches := ca)) == Chain(st)
  {}

  lemma SnapshotsSelf(x: Context, d: Clusters)
    requires Whole(x.h.ClusterSize(), d)
    ensures SnapshotsKept(x, d, d)
  {}

  // ---- every history ----

  /** Whatever reads, writes and crashes happen, in whatever order: the invariant holds, the guest sees a plain array
      of bytes, no snapshot sees anything, and the image still says what it is. */
  lemma {:induction false} RunOK(x: Context, st: State, writable: bool, evs: seq<Event>)
    requires StateOK(x, st) && Paired(st) && Describes(x, D(st.core), writable) && History(st, writable, evs)
    ensures var r := Run(st, writable, evs);
            && StateOK(x, r.0) && r.0.parents == st.parents && r.0.core.h == st.core.h == x.h
            && Behaves(x.h, writable, Memory(Chain(st)), evs, r.1, Memory(Chain(r.0)))
            && SnapshotsKept(x, D(st.core), D(r.0.core)) && Describes(x, D(r.0.core), writable)
    decreases |evs|
  {
    hide StateOK, Memory, After, Obeys, CanHappen, SnapshotsKept, Describes;
    HeaderOK(x, st);
    if evs == [] {
      SnapshotsSelf(x, D(st.core));
    } else {
      EventOK(x, st, writable, evs[0]);
      var st1 := After(st, writable, evs[0]).0;
      RunOK(x, st1, writable, evs[1..]);
      assert Run(st, writable, evs).1[1..] == Run(st1, writable, evs[1..]).1;
      KeptTwice(x, D(st.core), D(st1.core), D(Run(st, writable, evs).0.core));
    }
  }

  lemma KeptTwice(x: Context, d: Clusters, d1: Clusters, d2: Clusters)
    requires Whole(x.h.ClusterSize(), d) && Whole(x.h.ClusterSize(), d1) && Whole(x.h.ClusterSize(), d2)
    requires SnapshotsKept(x, d, d1) && SnapshotsKept(x, d1, d2)
    ensures SnapshotsKept(x, d, d2)
  {
    hide Content;
  }

  // ---- with and without the caches ----

  function PureAfter(c: Core, parents: seq<Core>, writable: bool, ev: Event): (Core, Answer) {
    match ev
    case Read(off, n) => (c, Got(PureReadAt([c] + parents, off, n)))
    case Write(off, buf) =>
      var w := PureWriteAt(c, parents, writable, off, buf);
      (w.s, Written(w.Outcome()))
    case Crash(_, _, _, image) =>
      match OpenImage(Image(image, c.codec, c.cap), writable)
      case Ok(again) => (again, Reopened(Ok(())))
      case Err(e) => (c, Reopened(Err(e)))
  }

  function PureRun(c: Core, parents: seq<Core>, writable: bool, evs: seq<Event>): (Core, seq<Answer>)
    decreases |evs|
  {
    if evs == [] then (c, [])
    else
      var (c1, a) := PureAfter(c, parents, writable, evs[0]);
      var (c2, rest) := PureRun(c1, parents, writable, evs[1..]);
      (c2, [a] + rest)
  }

  lemma EventPure(x: Context, st: State, writable: bool, ev: Event)
    requires StateOK(x, st) && Paired(st)
    ensures var r := After(st, writable, ev);
            (r.0.core, r.1) == PureAfter(st.core, st.parents, writable, ev)
  {
    hide CacheOK, ByteUnder, CoreOK, ReadAt, PureReadAt, WriteAt, PureWriteAt, OpenImage;
    match ev
    case Read(off, n) => ReadAtPure(Chain(st), st.caches, off, n);
    case Write(off, buf) => WriteAtPure(x, st, writable, off, buf);
    case Crash(_, _, _, _) =>
  }

  /** In every history the reader with caches answers as the reader without any, and leaves the same bytes. */
  lemma {:induction false} RunPure(x: Context, st: State, writable: bool, evs: seq<Event>)
    requires StateOK(x, st) && Paired(st) && Describes(x, D(st.core), writable) && History(st, writable, evs)
    ensures var r := Run(st, writable, evs);
            (r.0.core, r.1) == PureRun(st.core, st.parents, writable, evs)
    decreases |evs|
  {
    hide StateOK, After, PureAfter, CanHappen, Describes;
    if evs != [] {
      EventOK(x, st, writable, evs[0]);
      EventPure(x, st, writable, evs[0]);
      RunPure(x, After(st, writable, evs[0]).0, writable, evs[1..]);
    }
  }
}
