/** Little-endian encoding of unsigned words. */
module Bytes {
  import opened Words

  type bytes = seq<u8>

  predicate IsAscii(s: string) {
    forall i | 0 <= i < |s| :: s[i] as int < 0x80
  }

  /** The bytes of an ASCII text. */
  function AsciiText(s: string): bytes
    requires IsAscii(s)
  {
    seq(|s|, i requires 0 <= i < |s| => s[i] as int)
  }

  ghost function Pow256(k: nat): nat {
    if k == 0 then 1 else 0x100 * Pow256(k - 1)
  }

  /** The byte of `n` at position `i`. */
  function ByteOf(n: nat, i: nat): u8 {
    if i == 0 then n % 0x100 else ByteOf(n / 0x100, i - 1)
  }

  /** The low `k` bytes of `n`, least significant first. */
  function LE(n: nat, k: nat): (b: bytes)
    ensures |b| == k
  {
    seq(k, i requires 0 <= i => ByteOf(n, i))
  }

  function FromLE(b: bytes): nat {
    if b == [] then 0 else b[0] + 0x100 * FromLE(b[1..])
  }

  lemma {:induction false} DecodeEncode(n: nat, k: nat)
    requires n < Pow256(k)
    ensures FromLE(LE(n, k)) == n
  {
    if k > 0 {
      DecodeEncode(n / 0x100, k - 1);
      assert LE(n, k)[0] == n % 0x100;
      assert LE(n, k)[1..] == LE(n / 0x100, k - 1);
    }
  }

  lemma {:induction false} FromLEBound(b: bytes)
    ensures FromLE(b) < Pow256(|b|)
  {
    if b != [] {
      FromLEBound(b[1..]);
    }
  }

  lemma WordSizes()
    ensures Pow256(1) == 0x100 && Pow256(2) == 0x1_0000 && Pow256(3) == TWO_24
    ensures Pow256(4) == TWO_32 && Pow256(8) == TWO_64
  {
    assert Pow256(1) == 0x100;
    assert Pow256(2) == 0x1_0000;
    assert Pow256(3) == TWO_24;
    assert Pow256(4) == TWO_32;
    assert Pow256(5) == 0x100 * TWO_32;
    assert Pow256(6) == 0x1_0000 * TWO_32;
    assert Pow256(7) == TWO_24 * TWO_32;
  }

  /** Reads the `k`-byte word at offset `off`; the caller has checked the bounds. */
  function WordAt(b: bytes, off: nat, k: nat): (n: nat)
    requires off + k <= |b|
    ensures k == 2 ==> n < 0x1_0000
    ensures k == 4 ==> n < TWO_32
    ensures k == 8 ==> n < TWO_64
  {
    WordSizes();
    FromLEBound(b[off..off + k]);
    FromLE(b[off..off + k])
  }

  /** A word written between two other pieces is read back there. */
  lemma WordInside(front: bytes, n: nat, k: nat, back: bytes)
    requires n < Pow256(k)
    ensures WordAt(front + LE(n, k) + back, |front|, k) == n
  {
    DecodeEncode(n, k);
    assert (front + LE(n, k) + back)[|front|..|front| + k] == LE(n, k);
  }

  /** A word is read back wherever its bytes are. */
  lemma WordHere(b: bytes, off: nat, n: nat, k: nat)
    requires n < Pow256(k) && off + k <= |b| && b[off..off + k] == LE(n, k)
    ensures WordAt(b, off, k) == n
  {
    DecodeEncode(n, k);
  }

  lemma SliceInside(front: bytes, e: bytes, back: bytes, i: nat, j: nat)
    requires i <= j <= |e|
    ensures (front + e + back)[|front| + i..|front| + j] == e[i..j]
  {
  }

  lemma Regrouped(a: bytes, b: bytes, c: bytes)
    ensures a + (b + c) == a + b + c
  {
  }
}
