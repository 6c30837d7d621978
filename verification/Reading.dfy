/** Reading through the caches and the backing chain is reading byte by byte without either. */
module Reading {
  import opened Bytes
  import opened Arith
  import opened Format
  import opened Engine

  // ---- the slow form ----

  /** A lookup that trusts no cache. */
  function PureLookup(c: Core, virt: nat): Result<ClusterMap> {
    LookupCluster(c, Cache(None, None), virt).Outcome()
  }

  function PureUnpack(c: Core, off: nat, span: nat): (r: Result<seq<byte>>)
    ensures r.Ok? ==> |r.value| == c.h.ClusterSize()
  {
    var payload :- DevRead(c, off, span);
    Unpack(c.h, c.codec, payload)
  }

  /** The guest byte at virt: from the first image of the chain where the cluster is not unallocated. None is a
      read error. */
  function ByteAt(ch: seq<Core>, virt: nat): Option<byte>
    requires ch != []
    decreases |ch|, 2
  {
    MappedByte(ch, PureLookup(ch[0], virt), Mod(virt, ch[0].h.ClusterSize()), virt)
  }

  /** Byte o of a cluster whose lookup gave m. */
  function MappedByte(ch: seq<Core>, m: Result<ClusterMap>, o: nat, virt: nat): Option<byte>
    requires ch != [] && o < ch[0].h.ClusterSize()
    decreases |ch|, 1
  {
    var c := ch[0];
    match m
    case Err(_) => None
    case Ok(Plain(host, _)) => if host + o < |c.dev| then Some(c.dev[host + o]) else None
    case Ok(Packed(off, span)) => (match PureUnpack(c, off, span) case Err(_) => None case Ok(b) => Some(b[o]))
    case Ok(Zero) => Some(0)
    case Ok(Unallocated) => ByteUnder(ch[1..], virt)
  }

  /** What a byte the child does not hold reads as: zero with no parent, or past the parent's end. */
  function ByteUnder(parents: seq<Core>, virt: nat): Option<byte>
    decreases |parents|, 3
  {
    if parents == [] || virt >= parents[0].h.virtualSize then Some(0) else ByteAt(parents, virt)
  }

  // ---- the caches ----

  ghost predicate SameEntries(h: Header, a: seq<byte>, b: seq<byte>) {
    |a| == |b| && forall j | 0 <= j < h.L2Entries() :: Word(a, j) == Word(b, j)
  }

  /** The cached L2 table has the entries of the table its L1 entry names; the cached cluster is what its compressed
      payload unpacks to. */
  ghost predicate CacheOK(c: Core, ca: Cache) {
    && c.imageLen <= |c.dev|
    && (ca.l2.Some? ==>
          && ca.l2.value.0 < |c.l1|
          && var off := L2TableOffset(c.h, c.imageLen, c.l1[ca.l2.value.0]);
          && off.Ok? && off.value.Some?
          && var table := DevRead(c, off.value.value, c.h.ClusterSize());
          && table.Ok? && SameEntries(c.h, ca.l2.value.1, table.value))
    && (ca.unpacked.Some? ==>
          && var m := PureLookup(c, Mul(ca.unpacked.value.0, c.h.ClusterSize()));
          && m.Ok? && m.value.Packed? && PureUnpack(c, m.value.hostOff, m.value.byteLen) == Ok(ca.unpacked.value.1))
  }

  ghost predicate CachesOK(ch: seq<Core>, ca: seq<Cache>) {
    |ch| == |ca| && forall i | 0 <= i < |ch| :: CacheOK(ch[i], ca[i])
  }

  /** A lookup through the cache is the lookup without it. */
  lemma LookupCached(c: Core, ca: Cache, virt: nat)
    requires CacheOK(c, ca)
    ensures LookupCluster(c, ca, virt).Outcome() == PureLookup(c, virt)
    ensures CacheOK(c, LookupCluster(c, ca, virt).s)
    ensures LookupCluster(c, ca, virt).s.unpacked == ca.unpacked
  {
    hide Classify, L2TableOffset, Word, Copied, PureUnpack;
  }

  lemma SameCluster(c: Core, v: nat, u: nat)
    requires Div(v, c.h.ClusterSize()) == Div(u, c.h.ClusterSize())
    ensures PureLookup(c, v) == PureLookup(c, u)
  {
    hide Classify, L2TableOffset, Word, Copied, DevRead, Div, Mod;
  }

  /** A slice of a compressed cluster through the cache is a slice of the cluster unpacked afresh. */
  lemma UnpackCached(c: Core, ca: Cache, vc: nat, off: nat, span: nat, skip: nat, n: nat)
    requires CacheOK(c, ca) && PureLookup(c, Mul(vc, c.h.ClusterSize())) == Ok(Packed(off, span))
    requires skip + n <= c.h.ClusterSize()
    ensures var r := ReadDecompressedSlice(c, ca, vc, off, span, skip, n);
            && CacheOK(c, r.s)
            && r.Outcome() == (if PureUnpack(c, off, span).Ok? then Ok(PureUnpack(c, off, span).value[skip..skip + n])
                               else Err(PureUnpack(c, off, span).error))
  {
    hide PureLookup, Unpack, L2TableOffset;
  }

  /** Every plain and compressed cluster a lookup names lies inside the image. */
  lemma LookupInside(c: Core, virt: nat)
    ensures var m := PureLookup(c, virt);
            && (m.Ok? && m.value.Plain? ==> m.value.hostOff + c.h.ClusterSize() <= c.imageLen)
            && (m.Ok? && m.value.Packed? ==> m.value.hostOff + m.value.byteLen <= c.imageLen)
  {
    hide L2TableOffset, Word, Copied, DecodeDescriptor, Div, Mod;
  }

  // ---- one chunk ----

  lemma WithinCluster(h: Header, v: nat, y: nat)
    requires Mod(v, h.ClusterSize()) + y < h.ClusterSize()
    ensures Div(v + y, h.ClusterSize()) == Div(v, h.ClusterSize())
    ensures Mod(v + y, h.ClusterSize()) == Mod(v, h.ClusterSize()) + y
  {
    DivMod(v, h.ClusterSize());
    DivModUnique(v + y, h.ClusterSize(), Div(v, h.ClusterSize()), Mod(v, h.ClusterSize()) + y);
  }

  /** The bytes from v on are known to be b. */
  ghost predicate Reads(ch: seq<Core>, v: nat, b: seq<byte>)
    requires ch != []
  {
    forall p | v <= p < v + |b| :: ByteAt(ch, p) == Some(b[p - v])
  }

  ghost predicate ReadsUnder(parents: seq<Core>, v: nat, b: seq<byte>) {
    forall p | v <= p < v + |b| :: ByteUnder(parents, p) == Some(b[p - v])
  }

  /** Some byte of the range is a read error. */
  ghost predicate Unreadable(ch: seq<Core>, v: nat, n: nat)
    requires ch != []
  {
    exists p | v <= p < v + n :: ByteAt(ch, p) == None
  }

  ghost predicate UnreadableUnder(parents: seq<Core>, v: nat, n: nat) {
    exists p | v <= p < v + n :: ByteUnder(parents, p) == None
  }

  /** What a read that was not refused for its range has to be. */
  ghost predicate ReadResult(ch: seq<Core>, v: nat, n: nat, r: Out<seq<Cache>, seq<byte>>)
    requires ch != []
  {
    && CachesOK(ch, r.s)
    && (r.Good? ==> |r.v| == n && Reads(ch, v, r.v))
    && (r.Bad? ==> Unreadable(ch, v, n))
  }

  lemma ReadAtOK(ch: seq<Core>, ca: seq<Cache>, off: nat, n: nat)
    requires ch != [] && CachesOK(ch, ca) && off + n <= ch[0].h.virtualSize
    ensures ReadResult(ch, off, n, ReadAt(ch, ca, off, n))
    decreases |ch|, 3, n
  {
    hide ByteAt, CacheOK;
    if n > 0 { ReadLoopOK(ch, ca, off, n); }
  }

  lemma ReadLoopOK(ch: seq<Core>, ca: seq<Cache>, v: nat, n: nat)
    requires ch != [] && CachesOK(ch, ca)
    ensures ReadResult(ch, v, n, ReadLoop(ch, ca, v, n))
    decreases |ch|, 2, n
  {
    hide ByteAt, CacheOK, ReadChunk;
    if n > 0 {
      var k := ChunkLen(ch[0].h, v, n);
      ReadChunkOK(ch, ca, v, k);
      var r := ReadChunk(ch, ca, v, k);
      if r.Good? { ReadLoopOK(ch, r.s, v + k, n - k); }
    }
  }

  /** One lookup decides the whole chunk. */
  lemma ReadChunkOK(ch: seq<Core>, ca: seq<Cache>, v: nat, n: nat)
    requires ch != [] && CachesOK(ch, ca) && n > 0 && Mod(v, ch[0].h.ClusterSize()) + n <= ch[0].h.ClusterSize()
    ensures ReadResult(ch, v, n, ReadChunk(ch, ca, v, n))
    decreases |ch|, 1, n
  {
    hide LookupCluster, ReadDecompressedSlice, PureLookup, CacheOK, PureUnpack, ByteAt, Div, Mod, Mul;
    var c, cs := ch[0], ch[0].h.ClusterSize();
    LookupCached(c, ca[0], v);
    var x := LookupCluster(c, ca[0], v).s;
    var ca1 := [x] + ca[1..];
    assert CachesOK(ch, ca1);
    var m := PureLookup(c, v);
    ChunkBytes(ch, v, n);
    assert m.Err? ==> ByteAt(ch, v) == None;
    if m.Ok? && m.value.Plain? {
      LookupInside(c, v);
      ImageInside(c, ca[0]);
    } else if m.Ok? && m.value.Packed? {
      UnpackChunk(c, x, v, n, m.value.hostOff, m.value.byteLen);
      var d := ReadDecompressedSlice(c, x, Div(v, cs), m.value.hostOff, m.value.byteLen, Mod(v, cs), n);
      assert CachesOK(ch, [d.s] + ca1[1..]);
      assert d.Bad? ==> ByteAt(ch, v) == None;
    } else if m.Ok? && m.value.Unallocated? {
      ReadUnallocatedOK(ch, ca1, v, n);
      if ReadUnallocated(ch, ca1, v, n).Bad? {
        var p :| v <= p < v + n && ByteUnder(ch[1..], p) == None;
        assert ByteAt(ch, p) == None;
      } else {
        var b := ReadUnallocated(ch, ca1, v, n).v;
        forall p | v <= p < v + n ensures ByteAt(ch, p) == Some(b[p - v]) {
          assert ByteUnder(ch[1..], p) == Some(b[p - v]);
        }
      }
    }
  }

  lemma ImageInside(c: Core, ca: Cache)
    requires CacheOK(c, ca)
    ensures c.imageLen <= |c.dev|
  {}

  /** The slow form of the bytes of one cluster, from the one lookup. */
  lemma ChunkBytes(ch: seq<Core>, v: nat, n: nat)
    requires ch != [] && Mod(v, ch[0].h.ClusterSize()) + n <= ch[0].h.ClusterSize()
    ensures forall p | v <= p < v + n ::
              && Mod(v, ch[0].h.ClusterSize()) + (p - v) < ch[0].h.ClusterSize()
              && ByteAt(ch, p) == MappedByte(ch, PureLookup(ch[0], v), Mod(v, ch[0].h.ClusterSize()) + (p - v), p)
  {
    hide PureLookup, MappedByte, Div, Mod;
    forall p | v <= p < v + n
      ensures PureLookup(ch[0], p) == PureLookup(ch[0], v)
      ensures Mod(p, ch[0].h.ClusterSize()) == Mod(v, ch[0].h.ClusterSize()) + (p - v)
    {
      WithinCluster(ch[0].h, v, p - v);
      SameCluster(ch[0], p, v);
    }
  }

  lemma UnpackChunk(c: Core, ca: Cache, v: nat, n: nat, off: nat, span: nat)
    requires CacheOK(c, ca) && PureLookup(c, v) == Ok(Packed(off, span))
    requires Mod(v, c.h.ClusterSize()) + n <= c.h.ClusterSize()
    ensures var o := Mod(v, c.h.ClusterSize());
            var r := ReadDecompressedSlice(c, ca, Div(v, c.h.ClusterSize()), off, span, o, n);
            && CacheOK(c, r.s)
            && r.Outcome() == (if PureUnpack(c, off, span).Ok? then Ok(PureUnpack(c, off, span).value[o..o + n])
                               else Err(PureUnpack(c, off, span).error))
  {
    hide PureLookup, PureUnpack, Div, Mod, Mul, ReadDecompressedSlice;
    var vc := Div(v, c.h.ClusterSize());
    MulDiv(vc, c.h.ClusterSize());
    SameCluster(c, Mul(vc, c.h.ClusterSize()), v);
    UnpackCached(c, ca, vc, off, span, Mod(v, c.h.ClusterSize()), n);
  }

  /** Reading under a cluster the child does not hold: the parent's bytes, and zeros past its end. */
  lemma ReadUnallocatedOK(ch: seq<Core>, ca: seq<Cache>, v: nat, n: nat)
    requires ch != [] && CachesOK(ch, ca)
    ensures var r := ReadUnallocated(ch, ca, v, n);
            && CachesOK(ch, r.s)
            && (r.Good? ==> |r.v| == n && ReadsUnder(ch[1..], v, r.v))
            && (r.Bad? ==> UnreadableUnder(ch[1..], v, n))
    decreases |ch|, 0, n
  {
    hide ByteAt, CacheOK, ReadAt;
    if |ch| > 1 && v < ch[1].h.virtualSize {
      var k := Min(n, ch[1].h.virtualSize - v);
      assert CachesOK(ch[1..], ca[1..]);
      ReadAtOK(ch[1..], ca[1..], v, k);
      var r := ReadAt(ch[1..], ca[1..], v, k);
      assert CachesOK(ch, [ca[0]] + r.s);
      assert forall p | v <= p < v + k :: ByteUnder(ch[1..], p) == ByteAt(ch[1..], p);
      if r.Bad? {
        var p :| v <= p < v + k && ByteAt(ch[1..], p) == None;
        assert ByteUnder(ch[1..], p) == None;
      }
    }
  }

  /** Two adjacent reads are one longer read, whatever the caches hold at each of them. */
  lemma AdjacentReads(ch: seq<Core>, ca: seq<Cache>, cb: seq<Cache>, cc: seq<Cache>, off: nat, a: nat, b: nat)
    requires ch != [] && CachesOK(ch, ca) && CachesOK(ch, cb) && CachesOK(ch, cc)
    requires off + a + b <= ch[0].h.virtualSize
    ensures var x, y, z := ReadAt(ch, ca, off, a), ReadAt(ch, cb, off + a, b), ReadAt(ch, cc, off, a + b);
            && (z.Good? <==> x.Good? && y.Good?)
            && (z.Good? ==> z.v == x.v + y.v)
  {
    hide ByteAt, CacheOK, ReadAt;
    ReadAtOK(ch, ca, off, a);
    ReadAtOK(ch, cb, off + a, b);
    ReadAtOK(ch, cc, off, a + b);
    var x, y, z := ReadAt(ch, ca, off, a), ReadAt(ch, cb, off + a, b), ReadAt(ch, cc, off, a + b);
    if z.Good? && x.Good? && y.Good? {
      forall o | 0 <= o < a + b ensures z.v[o] == (x.v + y.v)[o] {
        assert ByteAt(ch, off + o) == Some(z.v[off + o - off]);
        assert ByteAt(ch, off + o) == Some(if o < a then x.v[off + o - off] else y.v[off + o - (off + a)]);
      }
      assert z.v == x.v + y.v;
    }
  }
}
