/** Opening an image and the chain of its backing files. */
module Opening {
  import opened Bytes
  import opened Format
  import opened Engine

  /** A file that may hold an image, with its decompressors and the most the device under it can hold. */
  datatype Image = Image(bytes: seq<byte>, codec: Codec, cap: nat)

  // ---- one image ----

  /** The bytes the header is parsed from: a device shorter than they are is read as if zeros followed. */
  function HeaderBytes(m: seq<byte>): Result<seq<byte>> {
    if |m| < 72 then Err(Io) else if |m| < 112 then Ok(m + Zeros(112 - |m|)) else Ok(m[..112])
  }

  /** A header this reader reads, and writes if it is to. */
  function ReadHeader(m: seq<byte>, writable: bool): Result<Header> {
    var head :- HeaderBytes(m);
    var h :- ParseHeader(head);
    var _ :- CheckSupported(h);
    var _ :- if writable then CheckWritable(h) else Ok(());
    Ok(h)
  }

  function ReadL1(h: Header, m: seq<byte>): (l1: seq<u64>)
    ensures |l1| == h.l1Size
  {
    seq(h.l1Size, (i: nat) => Word(Slice(m, h.l1TableOffset, 8 * h.l1Size), i))
  }

  /** The L1 table is copied, nothing else is. */
  function OpenImage(im: Image, writable: bool): (r: Result<Core>)
    ensures r.Ok? ==> r.value.dev == im.bytes
  {
    var h :- ReadHeader(im.bytes, writable);
    if h.l1TableOffset + 8 * h.l1Size > |im.bytes| then Err(L1TableOutside)
    else Ok(Core(h, im.codec, im.cap, im.bytes, ReadL1(h, im.bytes), |im.bytes|, None, 0, []))
  }

  // ---- a chain ----

  /** A backing file needs both a place for its name and a name. */
  predicate HasBacking(h: Header) { h.backingFileOffset != 0 && h.backingFileSize != 0 }

  /** The bytes of the backing file's name. */
  function ReadBackingName(h: Header, m: seq<byte>): Result<seq<byte>> {
    if h.backingFileSize > 1024 then Err(NameTooLong)
    else if h.backingFileOffset + h.backingFileSize > |m| then Err(Io)
    else
      var name := m[h.backingFileOffset..h.backingFileOffset + h.backingFileSize];
      if 0 in name then Err(NameHasNul) else Ok(name)
  }

  /** The most images a chain may hold. */
  const MAX_BACKING_DEPTH: nat := 16

  /** The files of a chain: what there is to open in its i-th place, once the name in the place above is resolved. */
  type Files = nat -> Result<Image>

  /** Image i of a chain and everything under it, the parents read-only. */
  function OpenChain(files: Files, i: nat, writable: bool, depth: nat): Result<seq<Core>>
    decreases depth
  {
    var im :- files(i);
    if depth == 0 then Err(BackingTooDeep)
    else
      var c :- OpenImage(im, writable);
      if !HasBacking(c.h) then Ok([c])
      else
        var _ :- ReadBackingName(c.h, im.bytes);
        var under :- OpenChain(files, i + 1, false, depth - 1);
        Ok([c] + under)
  }

  /** What opening the file in place k gives. */
  function OpenedAt(files: Files, k: nat, writable: bool): Result<Core> {
    var im :- files(k);
    OpenImage(im, writable)
  }

  /** A header that gives a backing file both a place for its name and a name. */
  predicate NamesBacking(h: Header) { h.backingFileOffset > 0 && h.backingFileSize > 0 }

  /** The name is at most 1024 bytes, all there, none of them zero. */
  ghost predicate NameReadable(h: Header, m: seq<byte>) {
    && h.backingFileSize <= 1024 && h.backingFileOffset + h.backingFileSize <= |m|
    && forall p | h.backingFileOffset <= p < h.backingFileOffset + h.backingFileSize :: m[p] != 0
  }

  lemma NameRead(h: Header, m: seq<byte>)
    ensures ReadBackingName(h, m).Ok? <==> NameReadable(h, m)
    ensures NameReadable(h, m) ==>
              ReadBackingName(h, m).value == m[h.backingFileOffset..h.backingFileOffset + h.backingFileSize]
  {
    if h.backingFileOffset + h.backingFileSize <= |m| {
      var name := m[h.backingFileOffset..h.backingFileOffset + h.backingFileSize];
      assert forall p | h.backingFileOffset <= p < h.backingFileOffset + h.backingFileSize ::
          m[p] == name[p - h.backingFileOffset];
    }
  }

  /** The image in place k opens and names another one under it. */
  ghost predicate Leads(files: Files, k: nat, writable: bool) {
    var c := OpenedAt(files, k, writable);
    c.Ok? && NamesBacking(c.value.h) && NameReadable(c.value.h, c.value.dev)
  }

  ghost predicate Ends(files: Files, k: nat, writable: bool) {
    var c := OpenedAt(files, k, writable);
    c.Ok? && !NamesBacking(c.value.h)
  }

  /** One place of a chain: an image that names no backing file is the whole chain, and nothing below it is looked
      at; one that names a readable one stands on the chain of the next place; one that does not is an error. */
  lemma OpenChainStep(files: Files, i: nat, writable: bool, depth: nat)
    requires depth > 0 && OpenedAt(files, i, writable).Ok?
    ensures var c, below := OpenedAt(files, i, writable).value, OpenChain(files, i + 1, false, depth - 1);
            var r := OpenChain(files, i, writable, depth);
            && (!NamesBacking(c.h) ==> r == Ok([c]))
            && (NamesBacking(c.h) && !NameReadable(c.h, c.dev) ==> r.Err?)
            && (NamesBacking(c.h) && NameReadable(c.h, c.dev) && below.Err? ==> r == Err(below.error))
            && (NamesBacking(c.h) && NameReadable(c.h, c.dev) && below.Ok? ==>
                  r == Ok([c] + below.value) && |r.value| >= 2 && r.value[1..] == below.value)
  {
    hide OpenImage, ReadBackingName, NameReadable;
    var c, below := OpenedAt(files, i, writable).value, OpenChain(files, i + 1, false, depth - 1);
    NameRead(c.h, c.dev);
    if below.Ok? {
      SomeImage(files, i + 1, depth - 1);
      assert ([c] + below.value)[1..] == below.value;
    }
  }

  lemma SomeImage(files: Files, i: nat, depth: nat)
    ensures OpenChain(files, i, false, depth).Ok? ==> OpenChain(files, i, false, depth).value != []
  {
    hide OpenImage, ReadBackingName, HasBacking;
  }

  /** The chain from place i on leads to place last and ends there. */
  ghost predicate ChainEnds(files: Files, i: nat, writable: bool, last: nat) {
    if last <= i then last == i && Ends(files, i, writable)
    else
      && Leads(files, i, writable)
      && (forall k | i < k < last :: Leads(files, k, false))
      && Ends(files, last, false)
  }

  lemma ChainEndsNext(files: Files, i: nat, writable: bool, last: nat)
    requires Leads(files, i, writable)
    ensures ChainEnds(files, i, writable, last) <==> ChainEnds(files, i + 1, false, last)
  {
    hide OpenImage, NameReadable, NamesBacking;
  }

  /** A chain opens exactly when it ends within the depth and each place of it opens and can be followed, and then it
      is those images in order; otherwise, cycles included, the answer is an error. */
  lemma {:induction false} OpenChainOK(files: Files, i: nat, writable: bool, depth: nat)
    ensures OpenChain(files, i, writable, depth).Ok?
       <==> exists last: nat | i <= last < i + depth :: ChainEnds(files, i, writable, last)
    ensures var r := OpenChain(files, i, writable, depth);
            r.Ok? ==> 0 < |r.value| <= depth && ChainEnds(files, i, writable, i + |r.value| - 1)
                      && Ok(r.value[0]) == OpenedAt(files, i, writable)
                      && forall k | i < k < i + |r.value| :: Ok(r.value[k - i]) == OpenedAt(files, k, false)
    decreases depth
  {
    hide OpenImage, OpenChain, NameReadable, NamesBacking, ChainEnds;
    NoDepth(files, i, writable);
    NotOpened(files, i, writable, depth);
    if depth > 0 && OpenedAt(files, i, writable).Ok? { OpenChainStep(files, i, writable, depth); }
    if depth > 0 && Leads(files, i, writable) {
      OpenChainOK(files, i + 1, false, depth - 1);
      forall last: nat ensures ChainEnds(files, i, writable, last) <==> ChainEnds(files, i + 1, false, last) {
        ChainEndsNext(files, i, writable, last);
      }
      NotBeforeStart(files, i + 1, false);
      var under := OpenChain(files, i + 1, false, depth - 1);
      if under.Ok? { assert ChainEnds(files, i, writable, i + |under.value|); }
      if last: nat :| i <= last < i + depth && ChainEnds(files, i, writable, last) {
        assert ChainEnds(files, i + 1, false, last);
        assert OpenChain(files, i + 1, false, depth - 1).Ok?;
      }
    } else {
      FirstDecides(files, i, writable);
    }
  }

  lemma NotBeforeStart(files: Files, i: nat, writable: bool)
    ensures forall last: nat | ChainEnds(files, i, writable, last) :: i <= last
  {}

  lemma FirstDecides(files: Files, i: nat, writable: bool)
    ensures Ends(files, i, writable) ==> ChainEnds(files, i, writable, i)
    ensures forall last: nat | ChainEnds(files, i, writable, last) ::
              Leads(files, i, writable) || (last == i && Ends(files, i, writable))
  {
    hide OpenedAt, NameReadable, NamesBacking;
  }

  lemma NoDepth(files: Files, i: nat, writable: bool)
    ensures OpenChain(files, i, writable, 0).Err?
  {}

  lemma NotOpened(files: Files, i: nat, writable: bool, depth: nat)
    ensures OpenedAt(files, i, writable).Err? ==> OpenChain(files, i, writable, depth).Err?
  {
    hide OpenImage, ReadBackingName, HasBacking;
  }

  /** Files that name each other for ever are refused, at every depth. */
  lemma CycleRefused(files: Files, writable: bool, depth: nat)
    requires OpenedAt(files, 0, writable).Ok? ==>
               var h := OpenedAt(files, 0, writable).value.h; h.backingFileOffset != 0 && h.backingFileSize != 0
    requires forall k: nat | OpenedAt(files, k, false).Ok? ::
               var h := OpenedAt(files, k, false).value.h; h.backingFileOffset != 0 && h.backingFileSize != 0
    ensures OpenChain(files, 0, writable, depth).Err?
  {
    hide OpenedAt, OpenChain, NameReadable;
    OpenChainOK(files, 0, writable, depth);
    assert forall k: nat :: !Ends(files, k, false);
    assert !Ends(files, 0, writable);
  }

  /** Where every place opens and leads on, the answer is that the chain is too deep. */
  lemma {:induction false} EndlessIsTooDeep(files: Files, i: nat, writable: bool, depth: nat)
    requires Leads(files, i, writable) && forall k: nat | k > i :: Leads(files, k, false)
    ensures OpenChain(files, i, writable, depth) == Err(BackingTooDeep)
    decreases depth
  {
    hide OpenImage, NameReadable, NamesBacking, ReadBackingName, HasBacking;
    if depth > 0 {
      OpenChainStep(files, i, writable, depth);
      EndlessIsTooDeep(files, i + 1, false, depth - 1);
    }
  }

  /** The full depth opens chains of up to sixteen images, and no longer ones. */
  lemma SixteenDeep(files: Files, writable: bool)
    ensures OpenChain(files, 0, writable, MAX_BACKING_DEPTH).Ok?
       <==> exists last: nat | last <= 15 :: ChainEnds(files, 0, writable, last)
  {
    hide OpenChain, ChainEnds;
    OpenChainOK(files, 0, writable, MAX_BACKING_DEPTH);
  }
}
