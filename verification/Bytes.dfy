/** Bytes, 32-bit words in both byte orders, and copies into a buffer. */
module Bytes {

  type byte = x: int | 0 <= x < 256

  type Buffer = seq<byte>

  const WORD_SIZE: nat := 4
  const WORD_LIMIT: nat := 0x1_0000_0000

  /** The four bytes that the source gets by shifting a word right and truncating. */
  function BigEndian(n: nat): (b: Buffer)
    ensures |b| == WORD_SIZE
  {
    [n / 0x100_0000 % 256, n / 0x1_0000 % 256, n / 0x100 % 256, n % 256]
  }

  function FromBigEndian(b: Buffer): nat
    requires |b| >= WORD_SIZE
  {
    b[3] as int + b[2] as int * 0x100 + b[1] as int * 0x1_0000 + b[0] as int * 0x100_0000
  }

  /** A word as `memcpy` lays it out on the little-endian machines the server runs on. */
  function LittleEndian(n: nat): (b: Buffer)
    ensures |b| == WORD_SIZE
  {
    [n % 256, n / 0x100 % 256, n / 0x1_0000 % 256, n / 0x100_0000 % 256]
  }

  function FromLittleEndian(b: Buffer): nat
    requires |b| >= WORD_SIZE
  {
    b[0] as int + b[1] as int * 0x100 + b[2] as int * 0x1_0000 + b[3] as int * 0x100_0000
  }

  lemma WordDigits(n: nat)
    requires n < WORD_LIMIT
    ensures n % 256 + n / 0x100 % 256 * 0x100 + n / 0x1_0000 % 256 * 0x1_0000 + n / 0x100_0000 % 256 * 0x100_0000 == n
  {
    assert n / 0x100 / 0x100 == n / 0x1_0000;
    assert n / 0x1_0000 / 0x100 == n / 0x100_0000;
    assert n / 0x100_0000 < 256;
  }

  lemma BigEndianRoundTrip(n: nat)
    requires n < WORD_LIMIT
    ensures FromBigEndian(BigEndian(n)) == n
  {
    WordDigits(n);
  }

  lemma LittleEndianRoundTrip(n: nat)
    requires n < WORD_LIMIT
    ensures FromLittleEndian(LittleEndian(n)) == n
  {
    WordDigits(n);
  }

  /** What a buffer holds after `data` is copied to `at`. */
  function Splice(buf: Buffer, at: nat, data: Buffer): (r: Buffer)
    requires at + |data| <= |buf|
    ensures |r| == |buf|
  {
    buf[..at] + data + buf[at + |data|..]
  }

  lemma SpliceStep(buf: Buffer, at: nat, data: Buffer, x: byte)
    requires at + |data| < |buf|
    ensures Splice(buf, at, data + [x]) == Splice(buf, at, data)[at + |data| := x]
  {
  }

  method CopyInto(buf: array<byte>, at: nat, data: Buffer)
    requires at + |data| <= buf.Length
    modifies buf
    ensures buf[..] == Splice(old(buf[..]), at, data)
  {
    ghost var before := buf[..];
    for i := 0 to |data|
      invariant buf[..] == Splice(before, at, data[..i])
    {
      SpliceStep(before, at, data[..i], data[i]);
      assert data[..i + 1] == data[..i] + [data[i]];
      buf[at + i] := data[i];
    }
    assert data[..|data|] == data;
  }

  /** The bytes before the copy, the bytes copied, and both together. */
  lemma SplicedPrefix(buf: Buffer, at: nat, data: Buffer)
    requires at + |data| <= |buf|
    ensures Splice(buf, at, data)[..at] == buf[..at]
    ensures Splice(buf, at, data)[at..at + |data|] == data
    ensures Splice(buf, at, data)[..at + |data|] == buf[..at] + data
  {
  }

  /** Two copies side by side are one copy. */
  lemma SpliceTwice(buf: Buffer, at: nat, a: Buffer, b: Buffer)
    requires at + |a| + |b| <= |buf|
    ensures Splice(Splice(buf, at, a), at + |a|, b) == Splice(buf, at, a + b)
  {
  }

  // ----- slices -----

  lemma SliceOfPrefix(p: Buffer, buf: Buffer, lo: nat, hi: nat)
    requires p <= buf && lo <= hi <= |p|
    ensures buf[lo..hi] == p[lo..hi]
  {
  }

  lemma SliceOfSlice(buf: Buffer, at: nat, n: nat, lo: nat, hi: nat)
    requires at + n <= |buf| && lo <= hi <= n
    ensures buf[at..at + n][lo..hi] == buf[at + lo..at + hi]
  {
    var inner, outer := buf[at..at + n][lo..hi], buf[at + lo..at + hi];
    assert forall i :: 0 <= i < hi - lo ==> inner[i] == outer[i];
  }

  lemma SliceOfMiddle(a: Buffer, b: Buffer, c: Buffer, lo: nat, hi: nat)
    requires lo <= hi <= |b|
    ensures (a + b + c)[|a| + lo..|a| + hi] == b[lo..hi]
  {
  }

  lemma SliceOfEnd(a: Buffer, b: Buffer, lo: nat, hi: nat)
    requires lo <= hi <= |b|
    ensures (a + b)[|a| + lo..|a| + hi] == b[lo..hi]
  {
  }
}
