/** What an opened chain reads where its first image holds nothing. */
module Chains {
  import opened Bytes
  import opened Arith
  import opened Format
  import opened Engine
  import opened Reading
  import opened Opening
  import opened Payloads

  /** Under an unallocated cluster a chain reads what its parents read there, and zeros from the parent's end on. */
  lemma OverlayRead(ch: seq<Core>, ca: seq<Cache>, off: nat, n: nat)
    requires |ch| == |ca| >= 2 && CacheOK(ch[0], ca[0]) && PureLookup(ch[0], off) == Ok(Unallocated)
    requires n > 0 && off + n <= ch[0].h.virtualSize && Mod(off, ch[0].h.ClusterSize()) + n <= ch[0].h.ClusterSize()
    ensures off + n <= ch[1].h.virtualSize ==>
              ReadAt(ch, ca, off, n).Outcome() == ReadAt(ch[1..], ca[1..], off, n).Outcome()
    ensures off >= ch[1].h.virtualSize ==> ReadAt(ch, ca, off, n).Outcome() == Ok(Zeros(n))
    ensures off < ch[1].h.virtualSize < off + n ==>
              var k := ch[1].h.virtualSize - off;
              var below := ReadAt(ch[1..], ca[1..], off, k).Outcome();
              ReadAt(ch, ca, off, n).Outcome() == if below.Ok? then Ok(below.value + Zeros(n - k)) else below
  {
    hide PureLookup, LookupCluster, CacheOK, ReadAt, ReadDecompressedSlice, Mod;
    OneChunk(ch, ca, off, n);
    LookupCached(ch[0], ca[0], off);
    var below := ReadAt(ch[1..], ca[1..], off, n);
    if off + n <= ch[1].h.virtualSize { assert Min(n, ch[1].h.virtualSize - off) == n; }
    if below.Good? { assert below.v + Zeros(0) == below.v; }
  }

  /** Caches with nothing in them. */
  function NoCaches(n: nat): (ca: seq<Cache>)
    ensures |ca| == n
  {
    seq(n, _ => Cache(None, None))
  }

  lemma OpenedInside(files: Files, i: nat, writable: bool)
    requires OpenedAt(files, i, writable).Ok?
    ensures CacheOK(OpenedAt(files, i, writable).value, Cache(None, None))
  {
    hide ReadHeader, ReadL1, PureLookup;
  }

  /** An image that names a readable backing file opens onto the chain below it, and reads as that chain does wherever
      its own tables hold nothing and the parent reaches. */
  lemma OpenedOverlay(files: Files, i: nat, writable: bool, depth: nat, off: nat, n: nat)
    requires depth > 0 && OpenedAt(files, i, writable).Ok? && OpenChain(files, i, writable, depth).Ok?
    requires var h := OpenedAt(files, i, writable).value.h; h.backingFileOffset != 0 && h.backingFileSize != 0
    requires var c := OpenedAt(files, i, writable).value;
             && PureLookup(c, off) == Ok(Unallocated)
             && n > 0 && off + n <= c.h.virtualSize && Mod(off, c.h.ClusterSize()) + n <= c.h.ClusterSize()
    ensures var ch, below := OpenChain(files, i, writable, depth).value, OpenChain(files, i + 1, false, depth - 1);
            && below.Ok? && |below.value| >= 1 && ch[1..] == below.value && |ch| >= 2
            && (off + n <= below.value[0].h.virtualSize ==>
                  ReadAt(ch, NoCaches(|ch|), off, n).Outcome()
                  == ReadAt(below.value, NoCaches(|below.value|), off, n).Outcome())
  {
    hide OpenChain, OpenedAt, NameReadable, PureLookup, CacheOK, ReadAt, Mod;
    OpenChainStep(files, i, writable, depth);
    var ch := OpenChain(files, i, writable, depth).value;
    OpenedInside(files, i, writable);
    OverlayRead(ch, NoCaches(|ch|), off, n);
    assert NoCaches(|ch|)[1..] == NoCaches(|ch| - 1);
  }

  /** An image that lacks the name, or a place for it, opens alone, whatever else there is; zeros are under it. */
  lemma OpenedAlone(files: Files, i: nat, writable: bool, depth: nat, off: nat, n: nat)
    requires depth > 0 && OpenedAt(files, i, writable).Ok?
    requires var h := OpenedAt(files, i, writable).value.h; h.backingFileOffset == 0 || h.backingFileSize == 0
    requires var c := OpenedAt(files, i, writable).value;
             && PureLookup(c, off) == Ok(Unallocated)
             && n > 0 && off + n <= c.h.virtualSize && Mod(off, c.h.ClusterSize()) + n <= c.h.ClusterSize()
    ensures var c := OpenedAt(files, i, writable).value;
            && OpenChain(files, i, writable, depth) == Ok([c])
            && ReadAt([c], NoCaches(1), off, n).Outcome() == Ok(Zeros(n))
  {
    hide OpenedAt, PureLookup, CacheOK, NameReadable, Mod, LookupCluster;
    OpenChainStep(files, i, writable, depth);
    var c := OpenedAt(files, i, writable).value;
    hide OpenChain;
    OpenedInside(files, i, writable);
    OneChunk([c], NoCaches(1), off, n);
    LookupCached(c, Cache(None, None), off);
  }
}
