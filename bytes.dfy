/** Byte sequences and the big-endian integer packing that the region
    format uses (Python's `struct.pack(">I", n)` and `struct.unpack`). */
module Bytes {

  /** One octet of a region file. */
  type byte = b: int | 0 <= b < 256

  /** A region file is read and written in sectors of 4096 bytes. */
  const SectorSize: nat := 4096

  function Min(a: int, b: int): int {
    if a <= b then a else b
  }

  /** `bytearray(n)`: n zero bytes. */
  function Zeros(n: nat): (z: seq<byte>)
    ensures |z| == n
    ensures forall k | 0 <= k < n :: z[k] == 0
  {
    seq(n, _ => 0)
  }

  /** `struct.unpack(">I", s)`: four bytes, most significant first. */
  function UnpackU32(s: seq<byte>): (n: nat)
    requires |s| == 4
    ensures n < 0x1_0000_0000
  {
    s[0] as int * 0x100_0000 + s[1] as int * 0x1_0000 + s[2] as int * 0x100 + s[3]
  }

  /** `struct.pack(">I", n)`, defined for the values it accepts. */
  function PackU32(n: nat): (s: seq<byte>)
    requires n < 0x1_0000_0000
    ensures |s| == 4 && UnpackU32(s) == n
  {
    var b0, r0 := n / 0x100_0000, n % 0x100_0000;
    var b1, r1 := r0 / 0x1_0000, r0 % 0x1_0000;
    var b2, b3 := r1 / 0x100, r1 % 0x100;
    [b0, b1, b2, b3]
  }

  /** Packing inverts unpacking: every four bytes are the packing of the
      number they spell. */
  lemma PackUnpackU32(s: seq<byte>)
    requires |s| == 4
    ensures PackU32(UnpackU32(s)) == s
  {
    var n := UnpackU32(s);
    var r0 := s[1] as int * 0x1_0000 + s[2] as int * 0x100 + s[3];
    assert r0 < 0x100_0000;
    assert n / 0x100_0000 == s[0] && n % 0x100_0000 == r0;
    var r1 := s[2] as int * 0x100 + s[3];
    assert r0 / 0x1_0000 == s[1] && r0 % 0x1_0000 == r1;
    assert r1 / 0x100 == s[2] && r1 % 0x100 == s[3];
  }

  /** The three low bytes `struct.pack(">I", n)[1:]` spell n back when n
      fits in three bytes. */
  lemma LowThreeBytes(n: nat)
    requires n < 0x100_0000
    ensures var s := PackU32(n); s[0] == 0 && s[1] as int * 0x1_0000 + s[2] as int * 0x100 + s[3] == n
  {
  }

  /** `s[:at] + w + s[at + len(w):]`: Python's slice assignment of a
      same-length slice, as the region compiler patches its header. */
  function Patch(s: seq<byte>, at: nat, w: seq<byte>): (p: seq<byte>)
    requires at + |w| <= |s|
    ensures |p| == |s|
    ensures forall k | 0 <= k < |s| :: p[k] == if at <= k < at + |w| then w[k - at] else s[k]
  {
    s[..at] + w + s[at + |w|..]
  }

  /** What `f.read(n)` returns after `f.seek(at)` on a file holding
      `image`: at most n bytes, fewer when the file ends first. */
  function ReadAt(image: seq<byte>, at: nat, n: nat): (raw: seq<byte>)
    ensures |raw| == if at >= |image| then 0 else Min(n, |image| - at)
    ensures forall k | 0 <= k < |raw| :: raw[k] == image[at + k]
  {
    if at >= |image| then []
    else if at + n <= |image| then image[at .. at + n]
    else image[at..]
  }
}
