/** Machine words as the hash code uses them: rotations, and loading and storing words in
    big- and little-endian byte order. */
module Words {
  type byte = bv8

  lemma ByteValue(x: nat)
    requires x < 256
    ensures (x as byte) as nat == x
  {
    if x < 32 {} else if x < 64 {} else if x < 96 {} else if x < 128 {}
    else if x < 160 {} else if x < 192 {} else if x < 224 {} else {}
  }

  /** Rotation counts; every count in the code is a constant in this range. */
  type Shift = n: bv32 | 0 < n < 32 witness 1

  /** ROL and ROLc. */
  function Rol(x: bv32, n: Shift): bv32 {
    (x << n) | (x >> (32 - n))
  }

  /** ROR and RORc. */
  function Ror(x: bv32, n: Shift): bv32 {
    (x >> n) | (x << (32 - n))
  }

  /** ROR64c. */
  function Ror64(x: bv64, n: bv64): bv64
    requires 0 < n < 64
  {
    (x >> n) | (x << (64 - n))
  }

  // Sums modulo 2^32 and 2^64, and what undoes them. They are named so that a proof can hide
  // what an addition is.

  function Add(x: bv32, y: bv32): bv32 { x + y }

  function Sub(x: bv32, y: bv32): bv32 { x - y }

  function Sum4(x: bv32, y: bv32, z: bv32, w: bv32): bv32 { w + x + y + z }

  function Unsum4(t: bv32, x: bv32, y: bv32, z: bv32): bv32 { t - x - y - z }

  function Sum5(x: bv32, y: bv32, z: bv32, k: bv32, w: bv32): bv32 { x + y + z + k + w }

  function Unsum5(t: bv32, y: bv32, z: bv32, k: bv32, w: bv32): bv32 { t - y - z - k - w }

  lemma AddSub(x: bv32, y: bv32)
    ensures Sub(Add(x, y), y) == x
  {
    assert Add(x, y) == x + y && Sub(x + y, y) == x;
  }

  lemma SubAdd(x: bv32, y: bv32)
    ensures Add(Sub(x, y), y) == x
  {
    assert Sub(x, y) == x - y && Add(x - y, y) == x;
  }

  lemma Sum4Unsum4(x: bv32, y: bv32, z: bv32, w: bv32)
    ensures Unsum4(Sum4(x, y, z, w), x, y, z) == w
  {
    assert Sum4(x, y, z, w) == w + x + y + z && Unsum4(w + x + y + z, x, y, z) == w;
  }

  lemma Unsum4Sum4(x: bv32, y: bv32, z: bv32, w: bv32)
    ensures Sum4(x, y, z, Unsum4(w, x, y, z)) == w
  {
    assert Unsum4(w, x, y, z) == w - x - y - z && Sum4(x, y, z, w - x - y - z) == w;
  }

  lemma Sum5Unsum5(x: bv32, y: bv32, z: bv32, k: bv32, w: bv32)
    ensures Unsum5(Sum5(x, y, z, k, w), y, z, k, w) == x
  {
    assert Sum5(x, y, z, k, w) == x + y + z + k + w && Unsum5(x + y + z + k + w, y, z, k, w) == x;
  }

  lemma Unsum5Sum5(x: bv32, y: bv32, z: bv32, k: bv32, w: bv32)
    ensures Sum5(Unsum5(x, y, z, k, w), y, z, k, w) == x
  {
    assert Unsum5(x, y, z, k, w) == x - y - z - k - w && Sum5(x - y - z - k - w, y, z, k, w) == x;
  }

  function Xor4(x: bv32, y: bv32, z: bv32, w: bv32): bv32 { x ^ y ^ z ^ w }

  lemma Xor4Xor4(x: bv32, y: bv32, z: bv32, w: bv32)
    ensures Xor4(x, y, z, Xor4(x, y, z, w)) == w
  {}

  function Add64(x: bv64, y: bv64): bv64 { x + y }

  function Sub64(x: bv64, y: bv64): bv64 { x - y }

  function Sum64x4(x: bv64, y: bv64, z: bv64, w: bv64): bv64 { w + x + y + z }

  function Unsum64x4(t: bv64, x: bv64, y: bv64, z: bv64): bv64 { t - x - y - z }

  function Sum64x5(x: bv64, y: bv64, z: bv64, k: bv64, w: bv64): bv64 { x + y + z + k + w }

  function Unsum64x5(t: bv64, y: bv64, z: bv64, k: bv64, w: bv64): bv64 { t - y - z - k - w }

  lemma AddSubLong(x: bv64, y: bv64)
    ensures Sub64(Add64(x, y), y) == x
  {
    assert Add64(x, y) == x + y && Sub64(x + y, y) == x;
  }

  lemma SubAddLong(x: bv64, y: bv64)
    ensures Add64(Sub64(x, y), y) == x
  {
    assert Sub64(x, y) == x - y && Add64(x - y, y) == x;
  }

  lemma Sum4Unsum4Long(x: bv64, y: bv64, z: bv64, w: bv64)
    ensures Unsum64x4(Sum64x4(x, y, z, w), x, y, z) == w
  {
    assert Sum64x4(x, y, z, w) == w + x + y + z && Unsum64x4(w + x + y + z, x, y, z) == w;
  }

  lemma Sum5Unsum5Long(x: bv64, y: bv64, z: bv64, k: bv64, w: bv64)
    ensures Unsum64x5(Sum64x5(x, y, z, k, w), y, z, k, w) == x
  {
    assert Sum64x5(x, y, z, k, w) == x + y + z + k + w && Unsum64x5(x + y + z + k + w, y, z, k, w) == x;
  }

  lemma Unsum5Sum5Long(x: bv64, y: bv64, z: bv64, k: bv64, w: bv64)
    ensures Sum64x5(Unsum64x5(x, y, z, k, w), y, z, k, w) == x
  {
    assert Unsum64x5(x, y, z, k, w) == x - y - z - k - w && Sum64x5(x - y - z - k - w, y, z, k, w) == x;
  }

  // Rotations undo each other; the proofs take the counts four at a time.

  lemma RorRol(x: bv32, n: Shift)
    ensures Ror(Rol(x, n), n) == x
  {
    if n < 4 {} else if n < 8 {} else if n < 12 {} else if n < 16 {}
    else if n < 20 {} else if n < 24 {} else if n < 28 {} else {}
  }

  lemma RolRor(x: bv32, n: Shift)
    ensures Rol(Ror(x, n), n) == x
  {
    if n < 4 {} else if n < 8 {} else if n < 12 {} else if n < 16 {}
    else if n < 20 {} else if n < 24 {} else if n < 28 {} else {}
  }

  /** LOAD32H. */
  function Load32H(b: seq<byte>): bv32
    requires |b| == 4
  {
    (b[0] as bv32 << 24) | (b[1] as bv32 << 16) | (b[2] as bv32 << 8) | (b[3] as bv32)
  }

  /** LOAD32L. */
  function Load32L(b: seq<byte>): bv32
    requires |b| == 4
  {
    (b[3] as bv32 << 24) | (b[2] as bv32 << 16) | (b[1] as bv32 << 8) | (b[0] as bv32)
  }

  /** STORE32H. */
  function Store32H(x: bv32): (b: seq<byte>)
    ensures |b| == 4
  {
    [((x >> 24) & 255) as byte, ((x >> 16) & 255) as byte, ((x >> 8) & 255) as byte, (x & 255) as byte]
  }

  /** STORE32L. */
  function Store32L(x: bv32): (b: seq<byte>)
    ensures |b| == 4
  {
    [(x & 255) as byte, ((x >> 8) & 255) as byte, ((x >> 16) & 255) as byte, ((x >> 24) & 255) as byte]
  }

  /** LOAD64H. */
  function Load64H(b: seq<byte>): bv64
    requires |b| == 8
  {
    (b[0] as bv64 << 56) | (b[1] as bv64 << 48) | (b[2] as bv64 << 40) | (b[3] as bv64 << 32)
    | (b[4] as bv64 << 24) | (b[5] as bv64 << 16) | (b[6] as bv64 << 8) | (b[7] as bv64)
  }

  /** STORE64H of a word. */
  function Store64H(x: bv64): (b: seq<byte>)
    ensures |b| == 8
  {
    [((x >> 56) & 255) as byte, ((x >> 48) & 255) as byte, ((x >> 40) & 255) as byte, ((x >> 32) & 255) as byte,
     ((x >> 24) & 255) as byte, ((x >> 16) & 255) as byte, ((x >> 8) & 255) as byte, (x & 255) as byte]
  }

  lemma Load32HStore32H(x: bv32, b: seq<byte>)
    requires |b| == 4
    ensures Load32H(Store32H(x)) == x
    ensures Store32H(Load32H(b)) == b
  {}

  lemma Load32LStore32L(x: bv32, b: seq<byte>)
    requires |b| == 4
    ensures Load32L(Store32L(x)) == x
    ensures Store32L(Load32L(b)) == b
  {}

  lemma Load64HStore64H(x: bv64, b: seq<byte>)
    requires |b| == 8
    ensures Load64H(Store64H(x)) == x
    ensures Store64H(Load64H(b)) == b
  {}

  /** The sixteen big-endian 32-bit words of a 64-byte block. */
  function Words32H(b: seq<byte>): (ws: seq<bv32>)
    requires |b| == 64
    ensures |ws| == 16
  {
    seq(16, i requires 0 <= i < 16 => Load32H(b[4 * i..4 * i + 4]))
  }

  /** The sixteen little-endian 32-bit words of a 64-byte block. */
  function Words32L(b: seq<byte>): (ws: seq<bv32>)
    requires |b| == 64
    ensures |ws| == 16
  {
    seq(16, i requires 0 <= i < 16 => Load32L(b[4 * i..4 * i + 4]))
  }

  /** The sixteen big-endian 64-bit words of a 128-byte block. */
  function Words64H(b: seq<byte>): (ws: seq<bv64>)
    requires |b| == 128
    ensures |ws| == 16
  {
    seq(16, i requires 0 <= i < 16 => Load64H(b[8 * i..8 * i + 8]))
  }

  // The bytes that words were loaded from.

  function Bytes32H(ws: seq<bv32>): (b: seq<byte>)
    ensures |b| == 4 * |ws|
  {
    seq(4 * |ws|, i requires 0 <= i < 4 * |ws| => Store32H(ws[i / 4])[i % 4])
  }

  function Bytes32L(ws: seq<bv32>): (b: seq<byte>)
    ensures |b| == 4 * |ws|
  {
    seq(4 * |ws|, i requires 0 <= i < 4 * |ws| => Store32L(ws[i / 4])[i % 4])
  }

  function Bytes64H(ws: seq<bv64>): (b: seq<byte>)
    ensures |b| == 8 * |ws|
  {
    seq(8 * |ws|, i requires 0 <= i < 8 * |ws| => Store64H(ws[i / 8])[i % 8])
  }

  lemma BytesOfWords32H(b: seq<byte>)
    requires |b| == 64
    ensures Bytes32H(Words32H(b)) == b
  {
    hide Store32H, Load32H;
    forall i | 0 <= i < 64 ensures Bytes32H(Words32H(b))[i] == b[i] {
      Load32HStore32H(0, b[4 * (i / 4)..4 * (i / 4) + 4]);
    }
  }

  lemma BytesOfWords64H(b: seq<byte>)
    requires |b| == 128
    ensures Bytes64H(Words64H(b)) == b
  {
    hide Store64H, Load64H;
    forall i | 0 <= i < 128 ensures Bytes64H(Words64H(b))[i] == b[i] {
      Load64HStore64H(0, b[8 * (i / 8)..8 * (i / 8) + 8]);
    }
  }

  lemma BytesOfWords32L(b: seq<byte>)
    requires |b| == 64
    ensures Bytes32L(Words32L(b)) == b
  {
    hide Store32L, Load32L;
    forall i | 0 <= i < 64 ensures Bytes32L(Words32L(b))[i] == b[i] {
      Load32LStore32L(0, b[4 * (i / 4)..4 * (i / 4) + 4]);
    }
  }

  // Distinct words are stored as distinct bytes.

  lemma Bytes32HInjective(ws: seq<bv32>, vs: seq<bv32>)
    requires |ws| == |vs| && Bytes32H(ws) == Bytes32H(vs)
    ensures ws == vs
  {
    hide Store32H, Load32H;
    forall i | 0 <= i < |ws| ensures ws[i] == vs[i] {
      forall j | 0 <= j < 4 ensures Store32H(ws[i])[j] == Store32H(vs[i])[j] {
        assert Bytes32H(ws)[4 * i + j] == Bytes32H(vs)[4 * i + j];
      }
      assert Store32H(ws[i]) == Store32H(vs[i]);
      Load32HStore32H(ws[i], Store32H(ws[i]));
      Load32HStore32H(vs[i], Store32H(vs[i]));
    }
  }

  lemma Bytes32LInjective(ws: seq<bv32>, vs: seq<bv32>)
    requires |ws| == |vs| && Bytes32L(ws) == Bytes32L(vs)
    ensures ws == vs
  {
    hide Store32L, Load32L;
    forall i | 0 <= i < |ws| ensures ws[i] == vs[i] {
      forall j | 0 <= j < 4 ensures Store32L(ws[i])[j] == Store32L(vs[i])[j] {
        assert Bytes32L(ws)[4 * i + j] == Bytes32L(vs)[4 * i + j];
      }
      assert Store32L(ws[i]) == Store32L(vs[i]);
      Load32LStore32L(ws[i], Store32L(ws[i]));
      Load32LStore32L(vs[i], Store32L(vs[i]));
    }
  }

  lemma Bytes64HInjective(ws: seq<bv64>, vs: seq<bv64>)
    requires |ws| == |vs| && Bytes64H(ws) == Bytes64H(vs)
    ensures ws == vs
  {
    hide Store64H, Load64H;
    forall i | 0 <= i < |ws| ensures ws[i] == vs[i] {
      forall j | 0 <= j < 8 ensures Store64H(ws[i])[j] == Store64H(vs[i])[j] {
        assert Bytes64H(ws)[8 * i + j] == Bytes64H(vs)[8 * i + j];
      }
      assert Store64H(ws[i]) == Store64H(vs[i]);
      Load64HStore64H(ws[i], Store64H(ws[i]));
      Load64HStore64H(vs[i], Store64H(vs[i]));
    }
  }
}
