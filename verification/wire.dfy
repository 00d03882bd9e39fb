/**
  Fixed-width unsigned integers and their little-endian byte encoding,
  the layout `struct.pack("IIII", ...)` produces on a little-endian host.
 */
module Wire {

  type byte = x: int | 0 <= x < 256
  type u32 = x: int | 0 <= x < 0x1_0000_0000

  /** 256 to the power n: one more than the largest value n bytes can hold. */
  function Pow256(n: nat): (p: nat)
    ensures p >= 1
  {
    if n == 0 then 1 else 256 * Pow256(n - 1)
  }

  lemma Pow256Four()
    ensures Pow256(4) == 0x1_0000_0000
  {
    assert Pow256(2) == 65536;
  }

  /** The n least significant bytes of x, least significant first. */
  function LeBytes(x: nat, n: nat): (s: seq<byte>)
    ensures |s| == n
  {
    if n == 0 then [] else [x % 256] + LeBytes(x / 256, n - 1)
  }

  /** The unsigned value of s read least significant byte first. */
  function LeValue(s: seq<byte>): (v: nat)
    ensures v < Pow256(|s|)
  {
    if s == [] then 0 else s[0] + 256 * LeValue(s[1..])
  }

  /** Reading back the bytes of x gives x, whenever x fits in n bytes. */
  lemma {:induction false} LeValueOfBytes(x: nat, n: nat)
    requires x < Pow256(n)
    ensures LeValue(LeBytes(x, n)) == x
  {
    if n > 0 {
      assert x / 256 < Pow256(n - 1);
      LeValueOfBytes(x / 256, n - 1);
      assert LeBytes(x, n)[1..] == LeBytes(x / 256, n - 1);
    }
  }

  /** Encoding the value of a byte string gives back the same bytes. */
  lemma {:induction false} LeBytesOfValue(s: seq<byte>)
    ensures LeBytes(LeValue(s), |s|) == s
  {
    if s != [] {
      var v := LeValue(s);
      assert v % 256 == s[0] && v / 256 == LeValue(s[1..]);
      LeBytesOfValue(s[1..]);
    }
  }

  /** The four bytes `struct.pack("I", x)` writes. */
  function U32Bytes(x: u32): (s: seq<byte>)
    ensures |s| == 4 && LeValue(s) == x
  {
    Pow256Four();
    LeValueOfBytes(x, 4);
    LeBytes(x, 4)
  }

  /** The u32 `struct.unpack("I", ...)` reads from s[i..i+4]. */
  function U32At(s: seq<byte>, i: nat): u32
    requires i + 4 <= |s|
  {
    Pow256Four();
    LeValue(s[i..i + 4])
  }

  /** The four bytes read are the bytes `struct.pack` writes for the value read. */
  lemma U32AtBytes(s: seq<byte>, i: nat)
    requires i + 4 <= |s|
    ensures U32Bytes(U32At(s, i)) == s[i..i + 4]
  {
    LeBytesOfValue(s[i..i + 4]);
  }
}
