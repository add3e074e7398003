/** Bytes and little-endian integers. */
module Bytes {
  import opened Common

  type Byte = x: int | 0 <= x < 256

  const U32_LIMIT := 0x1_0000_0000

  function Limit(k: nat): (r: nat)
    ensures r >= 1
  {
    if k == 0 then 1 else 256 * Limit(k - 1)
  }

  /** The k lowest bytes of n, lowest first: what a store of a k-byte integer writes. */
  function LittleEndian(n: nat, k: nat): (bs: seq<Byte>)
    ensures |bs| == k
  {
    if k == 0 then [] else [n % 256] + LittleEndian(n / 256, k - 1)
  }

  function FromLittleEndian(bs: seq<Byte>): (n: nat)
    ensures n < Limit(|bs|)
  {
    if bs == [] then 0 else bs[0] + 256 * FromLittleEndian(bs[1..])
  }

  /** A number that fits survives the trip, and so does any group of bytes. */
  lemma {:induction false} LittleEndianRoundTrip(n: nat, k: nat)
    requires n < Limit(k)
    ensures FromLittleEndian(LittleEndian(n, k)) == n
  {
    if k > 0 {
      LittleEndianRoundTrip(n / 256, k - 1);
      assert LittleEndian(n, k)[1..] == LittleEndian(n / 256, k - 1);
    }
  }

  /** And bytes read as a number are the bytes that storing it writes. */
  lemma {:induction false} BytesRoundTrip(bs: seq<Byte>)
    ensures LittleEndian(FromLittleEndian(bs), |bs|) == bs
  {
    if bs != [] {
      BytesRoundTrip(bs[1..]);
      assert FromLittleEndian(bs) / 256 == FromLittleEndian(bs[1..]);
      assert FromLittleEndian(bs) % 256 == bs[0];
    }
  }

  /** A store truncates: what is read back is the number modulo 256^k. */
  lemma {:induction false} LittleEndianTruncates(n: nat, k: nat)
    ensures FromLittleEndian(LittleEndian(n, k)) == n % Limit(k)
  {
    if k > 0 {
      LittleEndianTruncates(n / 256, k - 1);
      assert LittleEndian(n, k)[1..] == LittleEndian(n / 256, k - 1);
      ModSplit(n, Limit(k - 1));
    }
  }

  /** What is left of n without its k lowest bytes. */
  function Shifted(n: nat, k: nat): nat {
    if k == 0 then n else Shifted(n / 256, k - 1)
  }

  lemma {:induction false} LittleEndianSplit(n: nat, j: nat, k: nat)
    ensures LittleEndian(n, j + k) == LittleEndian(n, j) + LittleEndian(Shifted(n, j), k)
  {
    if j > 0 {
      LittleEndianSplit(n / 256, j - 1, k);
    }
  }

  lemma Shifted32(n: nat)
    ensures Shifted(n, 4) == n / U32_LIMIT
  {
    assert Shifted(n, 4) == Shifted(n / 0x100, 3) == Shifted(n / 0x1_0000, 2) == Shifted(n / 0x100_0000, 1);
  }

  lemma ModSplit(n: nat, m: nat)
    requires m >= 1
    ensures n % (256 * m) == n % 256 + 256 * ((n / 256) % m)
  {
    var q, r := (n / 256) / m, (n / 256) % m;
    assert n / 256 == q * m + r;
    assert n == 256 * (q * m + r) + n % 256;
    assert 256 * (q * m) == q * (256 * m);
    QuotientUnique(256 * m, n, q, n % 256 + 256 * r);
  }

  /** A 32-bit field, byte by byte: 0x01020304 is stored as 4, 3, 2, 1. */
  function FourBytes(n: nat): seq<Byte> {
    [n % 0x100, n / 0x100 % 0x100, n / 0x1_0000 % 0x100, n / 0x100_0000 % 0x100]
  }

  lemma FourBytesOf(n: nat)
    ensures LittleEndian(n, 4) == FourBytes(n)
  {
    var a := n / 256;
    assert a / 256 == n / 0x1_0000 && a / 256 / 256 == n / 0x100_0000;
    assert LittleEndian(a, 3) == [a % 256] + LittleEndian(a / 256, 2);
    assert LittleEndian(a / 256, 2) == [a / 256 % 256] + LittleEndian(a / 256 / 256, 1);
    assert LittleEndian(a / 256 / 256, 1) == [a / 256 / 256 % 256];
  }

  lemma Limit32()
    ensures Limit(4) == U32_LIMIT
  {
    assert Limit(1) == 256;
    assert Limit(2) == 0x1_0000;
    assert Limit(3) == 0x100_0000;
  }

  function Zeros(n: nat): (z: seq<Byte>)
    ensures |z| == n && forall i :: 0 <= i < n ==> z[i] == 0
  {
    seq(n, _ => 0)
  }

  /** A vector's resize: cut, or extended with zeros. */
  function Resized(bytes: seq<Byte>, size: nat): (r: seq<Byte>)
    ensures |r| == size
    ensures forall i :: 0 <= i < size ==> r[i] == if i < |bytes| then bytes[i] else 0
  {
    if size <= |bytes| then bytes[..size] else bytes + Zeros(size - |bytes|)
  }

  function Concat(pieces: seq<seq<Byte>>): seq<Byte> {
    if pieces == [] then [] else pieces[0] + Concat(pieces[1..])
  }

  function Min(a: int, b: int): int {
    if a < b then a else b
  }

  function Max(a: int, b: int): int {
    if a < b then b else a
  }
}
