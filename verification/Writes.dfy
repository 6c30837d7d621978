/** A chunk of a write, whatever state its cluster is in. */
module Writes {
  import opened Bytes
  import opened Arith
  import opened Format
  import opened Accounting
  import opened Disk
  import opened DiskSteps
  import opened Images
  import opened Bridge
  import opened Engine
  import opened Safety
  import opened Allocation
  import opened Scanning
  import opened Allocator
  import opened Tables
  import opened Publishing
  import opened Reading
  import opened Chunks

  // ---- the caches survive every write that does not clear them ----

  lemma TableCacheSurvives(x: Context, c: Core, c': Core, ca: Cache)
    requires CoreOK(x, c) && CoreOK(x, c') && c'.l1 == c.l1 && KeepsTableWords(x, D(c), D(c'))
    requires CacheOK(c, ca) && ca.l2.Some?
    ensures CacheOK(c', ca.(unpacked := None))
  {
    hide SlotWord, CountOf, Content, Inv, MetaOf, Mul, Div, Mod, HostOffset, RootIs, FullBetween, Legal, ClustersOf, Cl,
      Copied, PureLookup, Word, L1ReservedBits, RefOfWord, SameTable, SameEntries, SameWords;
    var i := ca.l2.value.0;
    assert ValidSlot(x, Table(0, i));
    if HostOffset(c.l1[i]) == 0 {
      EmptyEntry(x, D(c), c.imageLen, i);
    } else {
      var t := Div(HostOffset(c.l1[i]), x.h.ClusterSize());
      TableThere(x, D(c), c.imageLen, i);
      TableThere(x, D(c'), c'.imageLen, i);
      ReadWhole(c.h, c.dev, t);
      ReadWhole(c'.h, c'.dev, t);
      TableWordsSame(x, D(c), D(c'), i);
      SameEntriesKept(x, D(c), D(c'), i, t, ca.l2.value.1);
    }
  }

  lemma SameEntriesKept(x: Context, d: Clusters, d': Clusters, i: nat, t: nat, cached: seq<byte>)
    requires Whole(x.h.ClusterSize(), d) && Whole(x.h.ClusterSize(), d')
    requires ValidSlot(x, Table(0, i)) && SameTable(x, d, d', i) && SameEntries(x.h, cached, At(d, t))
    requires forall j: nat | j < x.h.L2Entries() :: Word(At(d, t), j) == SlotWord(x, d, Data(0, i, j))
    requires forall j: nat | j < x.h.L2Entries() :: Word(At(d', t), j) == SlotWord(x, d', Data(0, i, j))
    ensures SameEntries(x.h, cached, At(d', t))
  {
    hide SlotWord, Word;
  }

  lemma TableWordsSame(x: Context, d: Clusters, d': Clusters, i: nat)
    requires KeepsTableWords(x, d, d') && ValidSlot(x, Table(0, i))
    ensures SlotWord(x, d', Table(0, i)) == SlotWord(x, d, Table(0, i)) && SameTable(x, d, d', i)
  {
    hide SlotWord;
  }

  /** The slot that a virtual cluster's lookup reads. */
  ghost function SlotOf(h: Header, v: nat): Slot {
    Data(0, SplitVirtual(h, v).l1Index, SplitVirtual(h, v).l2Index)
  }

  lemma SlotOfValid(x: Context, c: Core, v: nat)
    requires CoreOK(x, c) && PureLookup(c, v).Ok?
    ensures ValidSlot(x, SlotOf(x.h, v)) && Addresses(x.h, v, SlotOf(x.h, v))
  {
    hide WellFormed, RootIs, FullBetween, SlotWord, L2TableOffset, Classify, Div;
  }

  lemma PackedSame(x: Context, c: Core, c': Core, r: Slot, off: nat, span: nat)
    requires CoreOK(x, c) && CoreOK(x, c') && ValidSlot(x, r) && r.Data? && r.k == 0
    requires Means(x, c, r, Packed(off, span)) && Means(x, c', r, Packed(off, span))
    requires Content(x, D(c'), r) == Content(x, D(c), r) && PureUnpack(c, off, span).Ok?
    ensures PureUnpack(c', off, span) == PureUnpack(c, off, span)
  {
    hide SlotWord, Content, WellFormed, MemoryOK, Compressed, DecodeDescriptor, PureUnpack, Cl, RefOfWord;
    PackedContent(x, c, r, off, span);
    PackedContent(x, c', r, off, span);
    var u, u' := PureUnpack(c, off, span), PureUnpack(c', off, span);
    assert Known(u.value)[0] == Some(u.value[0]);
    KnownInjective(u.value, Unpacked(u'));
  }

  function Unpacked(u: Result<seq<byte>>): seq<byte> {
    match u
    case Ok(b) => b
    case Err(_) => []
  }

  lemma KnownInjective(a: seq<byte>, b: seq<byte>)
    ensures Known(a) == Known(b) ==> a == b
  {
    if Known(a) == Known(b) {
      assert |Known(a)| == |Known(b)|;
      forall i | 0 <= i < |a| ensures a[i] == b[i] {
        assert Known(a)[i] == Some(a[i]) && Known(b)[i] == Some(b[i]);
      }
    }
  }

  /** No compressed cluster reads differently. */
  ghost predicate SamePacked(x: Context, d: Clusters, d': Clusters)
    requires Whole(x.h.ClusterSize(), d) && Whole(x.h.ClusterSize(), d')
  {
    forall s :: ValidSlot(x, s) && s.Data? && Compressed(SlotWord(x, d, s)) ==> Content(x, d', s) == Content(x, d, s)
  }

  lemma UnpackedCacheSurvives(x: Context, c: Core, c': Core, ca: Cache)
    requires CoreOK(x, c) && CoreOK(x, c') && KeepsTableWords(x, D(c), D(c'))
    requires CacheOK(c, ca) && ca.unpacked.Some? && SamePacked(x, D(c), D(c'))
    ensures CacheOK(c', ca.(l2 := None))
  {
    hide SlotWord, CountOf, Content, WellFormed, MetaOf, Mul, Div, Mod, HostOffset, RootIs, FullBetween, Cl, Copied,
      PureLookup, PureUnpack, Classify, DecodeDescriptor, ZeroFlag, Compressed, L2ReservedBits, RefOf;
    var vc := ca.unpacked.value.0;
    var v := Mul(vc, c.h.ClusterSize());
    var m := PureLookup(c, v).value;
    var s := SlotOf(x.h, v);
    SlotOfValid(x, c, v);
    LookupSlot(x, c, v, s);
    LookupSlot(x, c', v, s);
    MapMeans(x, c, s);
    MapMeans(x, c', s);
    assert SlotWord(x, D(c'), s) == SlotWord(x, D(c), s);
    PackedSame(x, c, c', s, m.hostOff, m.byteLen);
  }

  lemma CacheSurvives(x: Context, c: Core, c': Core, ca: Cache)
    requires CoreOK(x, c) && CoreOK(x, c') && c'.l1 == c.l1 && KeepsTableWords(x, D(c), D(c'))
    requires CacheOK(c, ca) && SamePacked(x, D(c), D(c'))
    ensures CacheOK(c', ca)
  {
    hide SlotWord, Content, WellFormed, MemoryOK, L2TableOffset, PureLookup, PureUnpack, SameEntries, SamePacked;
    if ca.l2.Some? { TableCacheSurvives(x, c, c', ca); }
    if ca.unpacked.Some? { UnpackedCacheSurvives(x, c, c', ca); }
  }

  lemma StateSurvives(x: Context, st: State, c': Core)
    requires StateOK(x, st) && CoreOK(x, c') && c'.l1 == st.core.l1 && KeepsTableWords(x, D(st.core), D(c'))
    requires SamePacked(x, D(st.core), D(c'))
    ensures StateOK(x, st.(core := c'))
  {
    hide SlotWord, Content, WellFormed, MemoryOK, CacheOK, KeepsTableWords, SamePacked, ByteUnder;
    CacheSurvives(x, st.core, c', st.caches[0]);
    forall i | 0 <= i < 1 + |st.parents| ensures CacheOK(Chain(st.(core := c'))[i], st.caches[i]) {
      assert CacheOK(Chain(st)[i], st.caches[i]);
    }
  }

  // ---- a chunk that is given a cluster of its own ----

  /** Which share each kind of seed lets go of. */
  predicate Lets(seed: Seed, release: Option<nat>) {
    match seed
    case SeedZeros => release == None
    case SeedBacking => release == None
    case SeedHost(host) => release == Some(host)
    case SeedPacked(off, _) => release == Some(off)
  }

  lemma LeakIsForgotten(x: Context, st: State, r: Slot, seed: Seed, release: Option<nat>, y: nat)
    requires st.core.h == x.h && ValidSlot(x, r) && r.Data? && r.k == 0
    requires Seeds(x, st, r, seed) && Lets(seed, release)
    ensures Leak(x, D(st.core), r, release, y) == Bit(Forgotten(x.h, SlotWord(x, D(st.core), r), y))
  {
    hide SlotWord, Compressed, ZeroFlag, HostOffset, Div, Mod, Mul, Copied, DecodeDescriptor, ClustersOf;
    if seed.SeedPacked? {
      DivMono(seed.hostOff, seed.hostOff + seed.byteLen - 1, x.h.ClusterSize());
    }
  }

  lemma SwitchIsChunkCrash(x: Context, c: Core, c': Core, r: Slot)
    requires c.h == x.h && Switches(x, c, c') && ValidSlot(x, r) && r.Data? && SameContentsBut(x, D(c), D(c'), r)
    ensures ChunkCrash(x, c, c', r)
  {
    hide SlotWord, Content, WellFormed;
    forall n, m | |c.log| <= n < |c'.log| && CrashImage(c'.log[n], m) ensures ChunkImage(x, D(c), D(c'), r, m) {
      assert ReadsAs(x, D(c), m) || ReadsAs(x, D(c'), m);
    }
  }

  lemma PublishedIsDone(x: Context, st: State, c': Core, r: Slot, o: nat, src: seq<byte>, seeded: seq<byte>, seed: Seed,
                        release: Option<nat>)
    requires st.core.h == x.h && ValidSlot(x, r) && r.Data? && r.k == 0
    requires |seeded| == x.h.ClusterSize() && o + |src| <= |seeded|
    requires Published(x, st.core, c', r, Put(seeded, o, src), release)
    requires Content(x, D(st.core), r) == Known(seeded)
    requires Seeds(x, st, r, seed) && Lets(seed, release)
    ensures ChunkDone(x, st.core, c', r, o, src)
  {
    hide SlotWord, Content, WellFormed, MemoryOK, Slack, MetaOf, NewEntry, Seeds, Lets, Leak, Forgotten, ChunkImage,
      ChunkCrash;
    SwitchIsChunkCrash(x, st.core, c', r);
    KnownPut(seeded, o, src);
    forall y: nat
      ensures Slack(MetaOf(x, D(c')), y)
           == Slack(MetaOf(x, D(st.core)), y) + Bit(Forgotten(x.h, SlotWord(x, D(st.core), r), y))
    {
      LeakIsForgotten(x, st, r, seed, release, y);
    }
  }

  lemma ClearedCaches(x: Context, st: State, c': Core)
    requires StateOK(x, st) && CoreOK(x, c')
    ensures StateOK(x, st.(core := c', caches := [Cache(None, None)] + st.caches[1..]))
  {
    hide SlotWord, WellFormed, MemoryOK, CacheOK, ByteUnder;
    var st' := st.(core := c', caches := [Cache(None, None)] + st.caches[1..]);
    EmptyCache(x, c');
    forall i | 0 <= i < 1 + |st.parents| ensures CacheOK(Chain(st')[i], st'.caches[i]) {
      assert CacheOK(Chain(st)[i], st.caches[i]);
    }
  }

  lemma EmptyCache(x: Context, c: Core)
    requires CoreOK(x, c)
    ensures CacheOK(c, Cache(None, None))
  {}

  /** What a chunk leaves behind: done, or refused with the guest's view as it was. */
  ghost predicate ChunkOutcome(x: Context, st: State, r: Slot, o: nat, src: seq<byte>, out: Out<State, ()>)
    requires st.core.h == x.h && ValidSlot(x, r) && r.Data? && o + |src| <= x.h.ClusterSize()
  {
    && StateOK(x, out.s) && out.s.parents == st.parents
    && (out.Good? ==> ChunkDone(x, st.core, out.s.core, r, o, src))
    && (out.Bad? ==> OnlyLeaks(x, st.core, out.s.core))
  }

  lemma QuietSamePacked(x: Context, c: Core, c': Core)
    requires c.h == x.h && OnlyLeaks(x, c, c')
    ensures SamePacked(x, D(c), D(c'))
  {
    hide SlotWord, Content, WellFormed, MemoryOK, Compressed;
  }

  lemma ReallocateOK(x: Context, st: State, cursor: nat, r: Slot, src: seq<byte>, seed: Seed, release: Option<nat>)
    requires r.Data? && Addresses(x.h, cursor, r) && ValidSlot(x, r)
    requires StateOK(x, st) && Seeds(x, st, r, seed) && Lets(seed, release)
    requires Div(cursor, x.h.ClusterSize()) == Mul(r.i, x.h.L2Entries()) + r.j
    requires Mod(cursor, x.h.ClusterSize()) + |src| <= x.h.ClusterSize()
    requires release.Some? ==> Touches(RefOf(x, D(st.core), r), Div(release.value, x.h.ClusterSize()))
    ensures ChunkOutcome(x, st, r, Mod(cursor, x.h.ClusterSize()), src, ReallocateChunk(st, cursor, src, seed, release))
  {
    hide SlotWord, Content, WellFormed, MemoryOK, Seeds, SeedCluster, AllocateCluster, Publish, ChunkDone, Published,
      CachesOK, ByteUnder, SamePacked, Mul, Div, Mod, Quiet, RefOfWord, KeepsTableWords, Leak, Slack, MetaOf, Put;
    var o := Mod(cursor, x.h.ClusterSize());
    SeedOK(x, st, r, cursor, seed);
    var s := SeedCluster(Chain(st), st.caches, cursor, seed);
    var st1 := st.(caches := s.s);
    LeakNothing(x, st.core);
    if s.Good? {
      AllocateOK(x, st.core);
      var a := AllocateCluster(st.core);
      if a.Bad? {
        RootOnly(x, st1, a.s);
      } else {
        var full := Splice(s.v, o, src);
        PublishOK(x, st.core, cursor, r, full, release);
        var p := Publish(a.s, cursor, a.v, full, release);
        if p.Bad? {
          QuietSamePacked(x, st.core, p.s);
          StateSurvives(x, st1, p.s);
        } else {
          PublishedCore(x, st.core, p.s, r, full, release);
          PublishedIsDone(x, st, p.s, r, o, src, s.v, seed, release);
          ClearedCaches(x, st1, p.s);
        }
      }
    }
  }

  lemma PublishedCore(x: Context, c: Core, c': Core, r: Slot, full: seq<byte>, release: Option<nat>)
    requires c.h == x.h && ValidSlot(x, r) && r.Data? && Published(x, c, c', r, full, release)
    ensures CoreOK(x, c')
  {}

  lemma LeakNothing(x: Context, c: Core)
    requires CoreOK(x, c)
    ensures OnlyLeaks(x, c, c)
  {
    assert LeaksJust(x, D(c), D(c), None);
  }

  /** A refused allocation at most loads the refcount table. */
  lemma RootOnly(x: Context, st: State, c': Core)
    requires StateOK(x, st) && CoreOK(x, c') && Quiet(x, st.core, c') && c' == st.core.(root := c'.root)
    ensures OnlyLeaks(x, st.core, c') && StateOK(x, st.(core := c'))
  {
    hide SlotWord, Content, WellFormed, MemoryOK, CacheOK, ByteUnder, ClustersOf, Slack, MetaOf;
    assert D(c') == D(st.core);
    assert LeaksJust(x, D(st.core), D(c'), None);
    QuietSamePacked(x, st.core, c');
    StateSurvives(x, st, c');
  }

  // ---- any chunk ----

  lemma InPlaceState(x: Context, st: State, r: Slot, host: nat, o: nat, src: seq<byte>)
    requires StateOK(x, st) && ValidSlot(x, r) && r.Data? && r.k == 0 && MayWriteThrough(x, st.core, r, host)
    requires o + |src| <= x.h.ClusterSize()
    ensures var w := DevWrite(st.core, host + o, src);
            && w.Good? && ChunkDone(x, st.core, w.s, r, o, src) && StateOK(x, st.(core := w.s))
  {
    hide SlotWord, Content, WellFormed, MemoryOK, CachesOK, ByteUnder, Slack, MetaOf, Compressed, HostOffset, ZeroFlag,
      DevWrite, ChunkCrash, NewEntry, Mul, Div, RefOf, Sole;
    InPlaceOK(x, st.core, r, host, o, src);
    InPlaceWords(x, st.core, r, host, o, src);
    StateSurvives(x, st, DevWrite(st.core, host + o, src).s);
  }

  lemma InPlaceWords(x: Context, c: Core, r: Slot, host: nat, o: nat, src: seq<byte>)
    requires CoreOK(x, c) && ValidSlot(x, r) && r.Data? && r.k == 0 && MayWriteThrough(x, c, r, host)
    requires o + |src| <= x.h.ClusterSize() && DevWrite(c, host + o, src).Good?
    ensures KeepsTableWords(x, D(c), D(DevWrite(c, host + o, src).s))
    ensures SamePacked(x, D(c), D(DevWrite(c, host + o, src).s))
  {
    hide SlotWord, Content, MetaOf, Compressed, HostOffset, ZeroFlag, Mul, Div, RefOf, Sole, Inv, Legal, ClustersOf,
      RootIs, FullBetween, Copied;
    var cs := x.h.ClusterSize();
    PutDiffers(cs, c.dev, Div(host, cs), o, src);
    ThroughImage(x, c, r, host, o, |src|, DevWrite(c, host + o, src).s.dev);
  }

  /** One chunk of a write: the guest's cluster gets exactly these bytes, or nothing visible happens. */
  lemma WriteChunkOK(x: Context, st: State, cursor: nat, r: Slot, src: seq<byte>)
    requires StateOK(x, st) && r.Data? && Addresses(x.h, cursor, r) && ValidSlot(x, r)
    requires Div(cursor, x.h.ClusterSize()) == Mul(r.i, x.h.L2Entries()) + r.j
    requires Mod(cursor, x.h.ClusterSize()) + |src| <= x.h.ClusterSize()
    ensures ChunkOutcome(x, st, r, Mod(cursor, x.h.ClusterSize()), src, WriteChunk(st, cursor, src))
  {
    hide SlotWord, Content, WellFormed, MemoryOK, Seeds, LookupCluster, PlanWrite, ReallocateChunk, DevWrite, ChunkDone,
      CacheOK, ByteUnder, Mul, Div, Mod, OnlyLeaks, MayWriteThrough, RefOfWord, PureLookup, MapOf, StateOK;
    var o := Mod(cursor, x.h.ClusterSize());
    StateMeans(x, st);
    LookupCached(st.core, st.caches[0], cursor);
    LookupSlot(x, st.core, cursor, r);
    var l := LookupCluster(st.core, st.caches[0], cursor);
    var st1 := st.(caches := [l.s] + st.caches[1..]);
    NewCache(x, st, l.s);
    LeakNothing(x, st.core);
    PlanOK(x, st.core, r, l.v);
    PlanSeeds(x, st1, r, l.v);
    PlanLets(st.core, l.v);
    var p := PlanWrite(st.core, l.v);
    if p.Ok? && p.value.InPlace? {
      InPlaceState(x, st1, r, p.value.hostOff, o, src);
    } else if p.Ok? {
      ReallocateOK(x, st1, cursor, r, src, p.value.seed, p.value.release);
    }
  }

  lemma StateMeans(x: Context, st: State)
    requires StateOK(x, st)
    ensures CoreOK(x, st.core) && st.core.h == x.h && CacheOK(st.core, st.caches[0]) && Paired(st)
  {
    hide WellFormed, MemoryOK, CacheOK, ByteUnder;
    assert CacheOK(Chain(st)[0], st.caches[0]);
  }

  lemma NewCache(x: Context, st: State, ca: Cache)
    requires StateOK(x, st) && CacheOK(st.core, ca)
    ensures StateOK(x, st.(caches := [ca] + st.caches[1..]))
  {
    hide WellFormed, MemoryOK, CacheOK, ByteUnder;
    var st1 := st.(caches := [ca] + st.caches[1..]);
    forall i | 0 <= i < 1 + |st.parents| ensures CacheOK(Chain(st1)[i], st1.caches[i]) {
      assert CacheOK(Chain(st)[i], st.caches[i]);
    }
  }

  lemma PlanLets(c: Core, m: ClusterMap)
    ensures var p := PlanWrite(c, m);
            p.Ok? && p.value.Reallocate? ==> Lets(p.value.seed, p.value.release)
  {
    hide ReadRefcount;
  }
}
