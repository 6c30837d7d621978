/** Which images open, from the fields of their header. */
module Acceptance {
  import opened Bytes
  import opened Arith
  import opened Format
  import opened Opening
  import opened Building

  /** No encryption; of the features a version 3 reader must know, only dirty (1), corrupt (2) and compression type (8);
      deflate or zstd. */
  predicate ReadableFields(h: Header) {
    && h.cryptMethod == 0
    && (h.version == 3 ==> h.incompatibleFeatures in {0, 1, 2, 3, 8, 9, 10, 11} && h.compressionType in {0, 1})
  }

  /** Of those features, a writer takes neither dirty nor corrupt. */
  predicate WritableFields(h: Header) { h.version == 3 ==> h.incompatibleFeatures in {0, 8} }

  lemma FeatureBit(h: Header, bit: nat, p: nat)
    requires Pow2(bit) == p
    ensures Feature(h, bit) <==> h.incompatibleFeatures / p % 2 == 1
  {
    hide Pow2, Div, Mod;
    DivIsQuotient(h.incompatibleFeatures, p);
    DivIsQuotient(h.incompatibleFeatures / p, 2);
  }

  lemma FeatureBits(h: Header)
    ensures Feature(h, 0) <==> h.incompatibleFeatures % 2 == 1
    ensures Feature(h, 1) <==> h.incompatibleFeatures / 2 % 2 == 1
    ensures Feature(h, 2) <==> h.incompatibleFeatures / 4 % 2 == 1
    ensures Feature(h, 4) <==> h.incompatibleFeatures / 16 % 2 == 1
  {
    hide Feature;
    assert Pow2(0) == 1 && Pow2(1) == 2 && Pow2(2) == 4 && Pow2(4) == 16;
    FeatureBit(h, 0, 1);
    FeatureBit(h, 1, 2);
    FeatureBit(h, 2, 4);
    FeatureBit(h, 4, 16);
  }

  lemma SupportedExactly(h: Header)
    requires h.version == 2 || h.version == 3
    ensures CheckSupported(h).Ok? <==> ReadableFields(h)
    ensures ReadableFields(h) ==> (CheckWritable(h).Ok? <==> WritableFields(h))
  {
    hide Feature;
    FeatureBits(h);
    var f := h.incompatibleFeatures;
    if f < 16 { assert f == f % 2 + 2 * (f / 2 % 2) + 4 * (f / 4 % 2) + 8 * (f / 8 % 2); }
  }

  lemma FirstBytes(h: Header, tail: seq<byte>) returns (pad: seq<byte>)
    requires PlainHeader(h)
    ensures HeaderBytes(EncodeHeader(h) + tail) == Ok(EncodeHeader(h) + pad)
  {
    hide EncodeHeader, PlainHeader;
    HeaderRoundTrip(h, tail);
    var e := EncodeHeader(h);
    if |e + tail| < 112 {
      pad := tail + Zeros(112 - |e + tail|);
      assert (e + tail) + Zeros(112 - |e + tail|) == e + pad;
    } else {
      pad := tail[..112 - |e|];
      assert (e + tail)[..112] == e + pad;
    }
  }

  /** An image opens exactly when its header is one that may be read, and written if it is to be, and the bytes of
      its L1 table are there; then it has that header and those bytes. */
  lemma OpensExactly(h: Header, tail: seq<byte>, codec: Codec, cap: nat, writable: bool)
    requires PlainHeader(h)
    ensures var m := EncodeHeader(h) + tail;
            var r := OpenImage(Image(m, codec, cap), writable);
            && (r.Ok? <==> && ReadableFields(h) && (writable ==> WritableFields(h))
                           && h.l1TableOffset + 8 * h.l1Size <= |m|)
            && (r.Ok? ==> r.value.h == h && r.value.dev == m && r.value.codec == codec && r.value.imageLen == |m|)
  {
    hide EncodeHeader, ParseHeader, HeaderBytes, CheckSupported, CheckWritable, ReadL1;
    var pad := FirstBytes(h, tail);
    HeaderRoundTrip(h, pad);
    SupportedExactly(h);
  }

  /** Why it does not, where more than one reason holds the first of them. */
  lemma RefusedBecause(h: Header, tail: seq<byte>, codec: Codec, cap: nat, writable: bool)
    requires PlainHeader(h)
    ensures var m, f := EncodeHeader(h) + tail, h.incompatibleFeatures;
            var r := OpenImage(Image(m, codec, cap), writable);
            && (h.cryptMethod != 0 ==> r == Err(Encrypted))
            && (h.cryptMethod == 0 && h.version == 3 ==>
                  && (f / 4 % 2 == 1 ==> r == Err(ExternalData))
                  && (f / 4 % 2 == 0 && f / 16 % 2 == 1 ==> r == Err(ExtendedL2))
                  && (f / 4 % 2 == 0 && f / 16 % 2 == 0 && f >= 32 ==> r == Err(UnknownFeature))
                  && (f / 4 % 2 == 0 && f < 16 && h.compressionType > 1 ==> r == Err(UnknownCompression)))
            && (ReadableFields(h) && h.version == 3 && writable ==>
                  && (f / 2 % 2 == 1 ==> r == Err(FlaggedCorrupt))
                  && (f / 2 % 2 == 0 && f % 2 == 1 ==> r == Err(FlaggedDirty)))
            && (ReadableFields(h) && (writable ==> WritableFields(h)) && h.l1TableOffset + 8 * h.l1Size > |m| ==>
                  r == Err(L1TableOutside))
  {
    hide EncodeHeader, ParseHeader, HeaderBytes, Feature, ReadL1, CheckSupported, CheckWritable;
    var pad := FirstBytes(h, tail);
    HeaderRoundTrip(h, pad);
    SupportedExactly(h);
    WhyUnsupported(h);
  }

  lemma WhyUnsupported(h: Header)
    requires h.version == 2 || h.version == 3
    ensures var f, c := h.incompatibleFeatures, CheckSupported(h);
            && (h.cryptMethod != 0 ==> c == Err(Encrypted))
            && (h.cryptMethod == 0 && h.version == 3 ==>
                  && (f / 4 % 2 == 1 ==> c == Err(ExternalData))
                  && (f / 4 % 2 == 0 && f / 16 % 2 == 1 ==> c == Err(ExtendedL2))
                  && (f / 4 % 2 == 0 && f / 16 % 2 == 0 && f >= 32 ==> c == Err(UnknownFeature))
                  && (f / 4 % 2 == 0 && f < 16 && h.compressionType > 1 ==> c == Err(UnknownCompression)))
            && (h.version == 3 && f / 2 % 2 == 1 ==> CheckWritable(h) == Err(FlaggedCorrupt))
            && (h.version == 3 && f / 2 % 2 == 0 && f % 2 == 1 ==> CheckWritable(h) == Err(FlaggedDirty))
  {
    hide Feature;
    FeatureBits(h);
    var f := h.incompatibleFeatures;
    if f < 16 { assert f / 16 % 2 == 0; }
  }
}
