/** Byte strings: big-endian integers and in-place replacement of a range. */
module Bytes {

  type byte = b: int | 0 <= b < 256

  datatype Option<+T> = None | Some(value: T)

  function Pow256(n: nat): (p: nat)
    ensures p >= 1
  {
    if n == 0 then 1 else 256 * Pow256(n - 1)
  }

  /** The big-endian value of a byte string. */
  function Decode(s: seq<byte>): (v: nat)
    ensures v < Pow256(|s|)
  {
    if s == [] then 0 else Decode(s[..|s| - 1]) * 256 + s[|s| - 1]
  }

  /** The n-byte big-endian form of v. */
  function Encode(v: nat, n: nat): (s: seq<byte>)
    ensures |s| == n
    ensures v < Pow256(n) ==> Decode(s) == v
  {
    if n == 0 then [] else
      var last: byte := v % 256;
      var init := Encode(v / 256, n - 1);
      assert (init + [last])[..n - 1] == init;
      init + [last]
  }

  lemma {:induction false} EncodeDecode(s: seq<byte>)
    ensures Encode(Decode(s), |s|) == s
  {
    if s != [] {
      var init := s[..|s| - 1];
      EncodeDecode(init);
      assert Decode(s) / 256 == Decode(init) && Decode(s) % 256 == s[|s| - 1];
      assert s == init + [s[|s| - 1]];
    }
  }

  lemma Pow256Values()
    ensures Pow256(2) == 0x1_0000
    ensures Pow256(4) == 0x1_0000_0000
    ensures Pow256(8) == 0x1_0000_0000_0000_0000
  {
    assert Pow256(4) == 256 * (256 * Pow256(2));
    assert Pow256(6) == 256 * (256 * Pow256(4));
    assert Pow256(8) == 256 * (256 * Pow256(6));
  }

  function Zeros(n: nat): (s: seq<byte>)
    ensures |s| == n
    ensures forall i :: 0 <= i < n ==> s[i] == 0
  {
    seq(n, _ => 0)
  }

  /** m with the bytes from offset o on replaced by b. */
  function Put<T>(m: seq<T>, o: nat, b: seq<T>): (r: seq<T>)
    requires o + |b| <= |m|
    ensures |r| == |m|
    ensures forall p :: 0 <= p < |m| ==> r[p] == if o <= p < o + |b| then b[p - o] else m[p]
  {
    m[..o] + b + m[o + |b|..]
  }

  /** The n bytes at o, or nothing at all when they are not all there. */
  function Slice(m: seq<byte>, o: nat, n: nat): (r: seq<byte>)
    ensures |r| <= n
  {
    if o + n <= |m| then m[o..o + n] else []
  }

  /** The j-th 8-byte big-endian word of a table. */
  function Word(t: seq<byte>, j: nat): (w: nat)
    ensures w < 0x1_0000_0000_0000_0000
  {
    Pow256Values();
    if 8 * j + 8 <= |t| then Decode(t[8 * j..8 * j + 8]) else 0
  }

  lemma WordPut(t: seq<byte>, j: nat, w: nat, i: nat)
    requires 8 * j + 8 <= |t| && w < 0x1_0000_0000_0000_0000
    ensures Word(Put(t, 8 * j, Encode(w, 8)), i) == if i == j then w else Word(t, i)
  {
    Pow256Values();
    var r := Put(t, 8 * j, Encode(w, 8));
    if i == j {
      assert r[8 * j..8 * j + 8] == Encode(w, 8);
    } else if 8 * i + 8 <= |t| {
      assert r[8 * i..8 * i + 8] == t[8 * i..8 * i + 8];
    }
  }

  lemma WordZeros(n: nat, j: nat)
    ensures Word(Zeros(n), j) == 0
  {
    if 8 * j + 8 <= n {
      DecodeZeros(Zeros(n)[8 * j..8 * j + 8]);
    }
  }

  lemma {:induction false} DecodeZeros(s: seq<byte>)
    requires forall i :: 0 <= i < |s| ==> s[i] == 0
    ensures Decode(s) == 0
  {
    if s != [] {
      DecodeZeros(s[..|s| - 1]);
    }
  }
}
