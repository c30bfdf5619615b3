/**
 Bytes, little-endian words and byte-range copies: the memory operations that the
 on-disk structures of the ext2 driver are read and written with.
 */
module Bytes {

  type byte = x: int | 0 <= x < 256

  /** `n` zero bytes, as left by `memset(p, 0, n)`. */
  function Zeros(n: nat): (r: seq<byte>)
    ensures |r| == n && forall i :: 0 <= i < n ==> r[i] == 0
  {
    seq(n, i => 0)
  }

  /** The effect of `memcpy(s + off, data, |data|)` on the buffer `s`. */
  function Splice(s: seq<byte>, off: nat, data: seq<byte>): (r: seq<byte>)
    requires off + |data| <= |s|
    ensures |r| == |s|
    ensures forall i :: 0 <= i < |s| ==> r[i] == if off <= i < off + |data| then data[i - off] else s[i]
  {
    s[..off] + data + s[off + |data|..]
  }

  /** A 16-bit store keeps the low 16 bits. */
  function Le16(v: nat): (r: seq<byte>)
    ensures |r| == 2
  {
    [v % 256, v / 256 % 256]
  }

  /** A 32-bit store keeps the low 32 bits. */
  function Le32(v: nat): (r: seq<byte>)
    ensures |r| == 4
  {
    [v % 256, v / 256 % 256, v / 65536 % 256, v / 16777216 % 256]
  }

  function Read16(s: seq<byte>, off: nat): (r: nat)
    requires off + 2 <= |s|
    ensures r < 0x1_0000
  {
    (s[off] as int) + 256 * (s[off + 1] as int)
  }

  function Read32(s: seq<byte>, off: nat): (r: nat)
    requires off + 4 <= |s|
    ensures r < 0x1_0000_0000
  {
    (s[off] as int) + 256 * (s[off + 1] as int) + 65536 * (s[off + 2] as int) + 16777216 * (s[off + 3] as int)
  }

  function Write16(s: seq<byte>, off: nat, v: nat): (r: seq<byte>)
    requires off + 2 <= |s|
    ensures |r| == |s|
  {
    Splice(s, off, Le16(v))
  }

  function Write32(s: seq<byte>, off: nat, v: nat): (r: seq<byte>)
    requires off + 4 <= |s|
    ensures |r| == |s|
  {
    Splice(s, off, Le32(v))
  }

  lemma Le32Value(v: nat)
    requires v < 0x1_0000_0000
    ensures v == v % 256 + 256 * (v / 256 % 256) + 65536 * (v / 65536 % 256) + 16777216 * (v / 16777216 % 256)
  {
    var a := v / 256;
    var b := a / 256;
    var c := b / 256;
    assert v == v % 256 + 256 * a && a == a % 256 + 256 * b && b == b % 256 + 256 * c && c < 256;
    assert v / 65536 == b && v / 16777216 == c;
  }

  /** A 32-bit store is read back, and touches no other 32-bit field. */
  lemma Read32OfWrite32(s: seq<byte>, off: nat, v: nat, other: nat)
    requires off + 4 <= |s| && other + 4 <= |s| && v < 0x1_0000_0000
    requires other == off || other + 4 <= off || off + 4 <= other
    ensures Read32(Write32(s, off, v), other) == if other == off then v else Read32(s, other)
  {
    var t := Write32(s, off, v);
    if other == off {
      Le32Value(v);
      assert t[off] == Le32(v)[0] && t[off + 1] == Le32(v)[1] && t[off + 2] == Le32(v)[2] && t[off + 3] == Le32(v)[3];
    } else {
      assert t[other + 0] == s[other + 0] && t[other + 1] == s[other + 1];
      assert t[other + 2] == s[other + 2] && t[other + 3] == s[other + 3];
    }
  }

  lemma Read32OfSplice(s: seq<byte>, off: nat, data: seq<byte>, other: nat)
    requires off + |data| <= |s| && other + 4 <= |s|
    requires other + 4 <= off || off + |data| <= other
    ensures Read32(Splice(s, off, data), other) == Read32(s, other)
  {
  }

  lemma Read16OfSplice(s: seq<byte>, off: nat, data: seq<byte>, other: nat)
    requires off + |data| <= |s| && other + 2 <= |s|
    requires other + 2 <= off || off + |data| <= other
    ensures Read16(Splice(s, off, data), other) == Read16(s, other)
  {
  }

  /** A 16-bit store is read back, and touches no other 16-bit field. */
  lemma Read16OfWrite16(s: seq<byte>, off: nat, v: nat)
    requires off + 2 <= |s| && v < 0x1_0000
    ensures Read16(Write16(s, off, v), off) == v
  {
  }
}
