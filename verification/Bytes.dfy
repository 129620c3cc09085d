/** Byte strings, fixed-width integers on the wire, and XOR with a keystream.

    The cryptographic primitives are parameters: a `Crypto` value packs an
    arbitrary hash, MAC and counter-mode keystream.  Every theorem that takes a
    `Crypto` therefore holds for all of them, the real ones included. */
module Bytes {

  type Byte = x: int | 0 <= x < 256
  type Bytes = seq<Byte>
  type Digest = d: Bytes | |d| == 32 witness seq(32, _ => 0)

  datatype Crypto = Crypto(
    sha256: Bytes -> Digest,
    hmac: (Bytes, Bytes) -> Digest,
    // byte number `pos` of the AES-CTR keystream under a key and an initial counter block
    ctr: (Digest, Bytes, nat) -> Byte)

  function Zeros(n: nat): (s: Bytes)
    ensures |s| == n
  {
    seq(n, _ => 0)
  }

  function Reverse(s: Bytes): (r: Bytes)
    ensures |r| == |s|
    ensures forall i :: 0 <= i < |s| ==> r[i] == s[|s| - 1 - i]
  {
    seq(|s|, i requires 0 <= i < |s| => s[|s| - 1 - i])
  }

  // ---- fixed-width integers ----

  function Pow256(k: nat): (r: nat)
    ensures r > 0
  {
    if k == 0 then 1 else 256 * Pow256(k - 1)
  }

  function LittleEndian(n: nat, k: nat): (s: Bytes)
    ensures |s| == k
  {
    if k == 0 then [] else [n % 256] + LittleEndian(n / 256, k - 1)
  }

  function FromLittleEndian(s: Bytes): nat
  {
    if s == [] then 0 else (s[0] as int) + 256 * FromLittleEndian(s[1..])
  }

  lemma {:induction false} LittleEndianRoundTrip(n: nat, k: nat)
    requires n < Pow256(k)
    ensures FromLittleEndian(LittleEndian(n, k)) == n
  {
    if k > 0 {
      assert LittleEndian(n, k)[1..] == LittleEndian(n / 256, k - 1);
      LittleEndianRoundTrip(n / 256, k - 1);
    }
  }

  lemma {:induction false} FromLittleEndianInjective(s: Bytes, t: Bytes)
    requires |s| == |t| && FromLittleEndian(s) == FromLittleEndian(t)
    ensures s == t
  {
    if s != [] {
      FromLittleEndianInjective(s[1..], t[1..]);
      assert s == [s[0]] + s[1..] && t == [t[0]] + t[1..];
    }
  }

  lemma {:induction false} FromLittleEndianBound(s: Bytes)
    ensures FromLittleEndian(s) < Pow256(|s|)
  {
    if s != [] {
      FromLittleEndianBound(s[1..]);
    }
  }

  lemma Pow256Of2And4()
    ensures Pow256(2) == 0x1_0000 && Pow256(4) == 0x1_0000_0000
  {
    assert Pow256(1) == 256;
    assert Pow256(3) == 256 * Pow256(2);
  }

  lemma LittleEndian4RoundTrip(n: nat)
    requires n < 0x1_0000_0000
    ensures FromLittleEndian(LittleEndian(n, 4)) == n
  {
    Pow256Of2And4();
    LittleEndianRoundTrip(n, 4);
  }

  // Two-byte network order, as used by every length field of TLS.
  function U16(n: nat): (s: Bytes)
    requires n < 0x1_0000
    ensures |s| == 2 && FromU16(s) == n
  {
    [n / 256, n % 256]
  }

  function FromU16(s: Bytes): (n: nat)
    requires |s| == 2
    ensures n < 0x1_0000
  {
    256 * s[0] as int + s[1] as int
  }

  // ---- XOR ----

  function Pow2(k: nat): (r: nat)
    ensures r > 0
  {
    if k == 0 then 1 else 2 * Pow2(k - 1)
  }

  function XorBit(a: nat, b: nat): (r: nat)
    ensures r < 2
  {
    if a % 2 == b % 2 then 0 else 1
  }

  function XorBits(a: nat, b: nat, k: nat): (r: nat)
    ensures r < Pow2(k)
  {
    if k == 0 then 0 else XorBit(a, b) + 2 * XorBits(a / 2, b / 2, k - 1)
  }

  lemma XorBitTwice(a: nat, b: nat, rest: nat)
    ensures (XorBit(a, b) + 2 * rest) / 2 == rest
    ensures XorBit(XorBit(a, b) + 2 * rest, b) == a % 2
  {}

  lemma {:induction false} XorBitsCancel(a: nat, b: nat, k: nat)
    requires a < Pow2(k)
    ensures XorBits(XorBits(a, b, k), b, k) == a
  {
    if k > 0 {
      XorBitTwice(a, b, XorBits(a / 2, b / 2, k - 1));
      XorBitsCancel(a / 2, b / 2, k - 1);
    }
  }

  lemma {:induction false} XorBitsCommute(a: nat, b: nat, k: nat)
    ensures XorBits(a, b, k) == XorBits(b, a, k)
  {
    if k > 0 {
      XorBitsCommute(a / 2, b / 2, k - 1);
    }
  }

  lemma Pow2Of8()
    ensures Pow2(8) == 256
  {
    assert Pow2(4) == 16;
  }

  function XorByte(a: Byte, b: Byte): Byte
  {
    Pow2Of8();
    XorBits(a, b, 8)
  }

  lemma XorByteCancel(a: Byte, b: Byte)
    ensures XorByte(XorByte(a, b), b) == a
    ensures XorByte(b, XorByte(a, b)) == a
  {
    Pow2Of8();
    XorBitsCancel(a, b, 8);
    XorBitsCommute(b, XorByte(a, b), 8);
  }

  function Xor(a: Bytes, b: Bytes): (r: Bytes)
    requires |a| == |b|
    ensures |r| == |a|
    ensures forall i :: 0 <= i < |a| ==> r[i] == XorByte(a[i], b[i])
  {
    seq(|a|, i requires 0 <= i < |a| => XorByte(a[i], b[i]))
  }

  // `data` encrypted (or decrypted) with the keystream from byte position `pos` on.
  function Crypt(c: Crypto, key: Digest, iv: Bytes, pos: nat, data: Bytes): (r: Bytes)
    ensures |r| == |data|
  {
    seq(|data|, i requires 0 <= i < |data| => XorByte(data[i], c.ctr(key, iv, pos + i)))
  }

  // Bit number `i` of a number.
  function Bit(n: nat, i: nat): nat
  {
    if i == 0 then n % 2 else Bit(n / 2, i - 1)
  }

  /** XOR bit by bit: a bit of the result is set exactly when it differs in the two. */
  lemma {:induction false} XorBitsAt(a: nat, b: nat, k: nat, i: nat)
    requires i < k
    ensures Bit(XorBits(a, b, k), i) == if Bit(a, i) == Bit(b, i) then 0 else 1
  {
    if i > 0 {
      XorBitTwice(a, b, XorBits(a / 2, b / 2, k - 1));
      XorBitsAt(a / 2, b / 2, k - 1, i - 1);
    }
  }

  lemma CryptTwice(c: Crypto, key: Digest, iv: Bytes, pos: nat, data: Bytes)
    ensures Crypt(c, key, iv, pos, Crypt(c, key, iv, pos, data)) == data
  {
    forall i | 0 <= i < |data|
      ensures Crypt(c, key, iv, pos, Crypt(c, key, iv, pos, data))[i] == data[i]
    {
      XorByteCancel(data[i], c.ctr(key, iv, pos + i));
    }
  }

  // One call on a concatenation equals two calls at consecutive positions: how
  // the message is cut into `update` calls does not matter.
  lemma CryptConcat(c: Crypto, key: Digest, iv: Bytes, pos: nat, a: Bytes, b: Bytes)
    ensures Crypt(c, key, iv, pos, a + b) == Crypt(c, key, iv, pos, a) + Crypt(c, key, iv, pos + |a|, b)
  {
    var l := Crypt(c, key, iv, pos, a + b);
    var r := Crypt(c, key, iv, pos, a) + Crypt(c, key, iv, pos + |a|, b);
    forall i | 0 <= i < |l|
      ensures l[i] == r[i]
    {
      if i >= |a| {
        assert pos + |a| + (i - |a|) == pos + i;
      }
    }
  }

  lemma CryptSlice(c: Crypto, key: Digest, iv: Bytes, pos: nat, data: Bytes, i: nat, j: nat)
    requires i <= j <= |data|
    ensures Crypt(c, key, iv, pos, data)[i..j] == Crypt(c, key, iv, pos + i, data[i..j])
  {
    var l, r := Crypt(c, key, iv, pos, data)[i..j], Crypt(c, key, iv, pos + i, data[i..j]);
    forall k | 0 <= k < j - i
      ensures l[k] == r[k]
    {
      assert pos + i + k == pos + (i + k);
    }
  }

  // Decrypting plain bytes followed by encrypted ones.
  lemma CryptSuffix(c: Crypto, key: Digest, iv: Bytes, pos: nat, a: Bytes, b: Bytes)
    ensures Crypt(c, key, iv, pos, a + Crypt(c, key, iv, pos + |a|, b)) == Crypt(c, key, iv, pos, a) + b
  {
    CryptConcat(c, key, iv, pos, a, Crypt(c, key, iv, pos + |a|, b));
    CryptTwice(c, key, iv, pos + |a|, b);
  }
}
