/** What a hash computes: a message is padded, cut into blocks and folded through the compression
    function. The padding is the one the done functions write; it is compared here with the standards. */
module Padding {
  import opened Arithmetic
  import opened Words
  import opened Folds
  import opened Encoding

  /** The parameters in which the hashes of the library differ. A block that is not blockSize bytes long
      is never compressed. */
  datatype Alg<!S(!new)> = Alg(
    blockSize: nat,      // bytes in a block
    lengthSize: nat,     // bytes in the length field of the standard
    bigEndian: bool,     // byte order of the length field
    compress: (S, seq<byte>) -> S,
    init: S,
    digestSize: nat,
    digest: S -> seq<byte>
  ) {
    ghost predicate Valid() {
      && ((blockSize == 64 && lengthSize == 8) || (blockSize == 128 && lengthSize == 16 && bigEndian))
      && forall s :: |digest(s)| == digestSize
    }

    /** x modulo the block size; spelled out for the two sizes because constant divisors are easier. */
    ghost function Rem(x: nat): (r: nat)
      requires Valid()
      ensures r < blockSize
    {
      if blockSize == 64 then x % 64 else x % 128
    }
  }

  function Zeros(k: nat): (z: seq<byte>)
    ensures |z| == k
  {
    seq(k, _ => 0)
  }

  /** The length in the byte order of the hash. */
  function StoreLength(bigEndian: bool, length: nat): (b: seq<byte>)
    ensures |b| == 8
  {
    if bigEndian then BigEndian(8, length) else LittleEndian(8, length)
  }

  /** How many zeros done writes after the byte 0x80 when curlen bytes are in the buffer: up to the last
      eight bytes of this block, or of the next one if the length field does not fit in this one. */
  ghost function ZeroCount<S(!new)>(alg: Alg<S>, curlen: nat): nat
    requires alg.Valid() && curlen < alg.blockSize
  {
    if curlen + 1 <= alg.blockSize - alg.lengthSize
    then alg.blockSize - 8 - (curlen + 1)
    else alg.blockSize - (curlen + 1) + alg.blockSize - 8
  }

  /** What done appends when curlen bytes are in the buffer and length bits were hashed. */
  ghost function Suffix<S(!new)>(alg: Alg<S>, curlen: nat, length: nat): seq<byte>
    requires alg.Valid() && curlen < alg.blockSize
  {
    [0x80] + Zeros(ZeroCount(alg, curlen)) + StoreLength(alg.bigEndian, length)
  }

  /** What done appends to a message of n bytes; the bit count is kept modulo 2^64. */
  ghost function Pad<S(!new)>(alg: Alg<S>, n: nat): seq<byte>
    requires alg.Valid()
  {
    Suffix(alg, alg.Rem(n), 8 * n % TWO_TO_64)
  }

  ghost function PaddedBlocks<S(!new)>(alg: Alg<S>, message: seq<byte>): seq<seq<byte>>
    requires alg.Valid()
  {
    Blocks(alg.blockSize, message + Pad(alg, |message|))
  }

  /** The chaining value after a message. */
  ghost function Chain<S(!new)>(alg: Alg<S>, message: seq<byte>): S
    requires alg.Valid()
  {
    Fold(alg.compress, alg.init, PaddedBlocks(alg, message))
  }

  ghost function Hash<S(!new)>(alg: Alg<S>, message: seq<byte>): seq<byte>
    requires alg.Valid()
  {
    alg.digest(Chain(alg, message))
  }

  // The standards

  /** A one bit and zeros up to the end of byte number n + 1 + k leave just the length field of the block. */
  ghost predicate Fits<S(!new)>(alg: Alg<S>, n: nat, k: nat)
    requires alg.Valid()
  {
    alg.Rem(n + 1 + k + alg.lengthSize) == 0
  }

  /** The message length in bits, or its low bits if it is too long for the length field. */
  ghost function StandardLength<S(!new)>(alg: Alg<S>, bits: nat): (b: seq<byte>)
    requires alg.Valid()
    ensures |b| == alg.lengthSize
  {
    if alg.bigEndian then BigEndian(alg.lengthSize, bits) else LittleEndian(alg.lengthSize, bits)
  }

  /** Padding as the standards define it: a one bit, the fewest zeros that leave room for the length field
      at the end of a block, and the length field (sections 5.1.1 and 5.1.2 of FIPS 180-4, sections 3.1
      and 3.2 of RFC 1321). FIPS 180-4 defines padding only for lengths that fit the length field, under 2^64 bits
      or under 2^128; beyond them this is the rule of RFC 1321, which keeps the low bits of the length. */
  ghost predicate IsStandard<S(!new)>(alg: Alg<S>, n: nat, pad: seq<byte>)
    requires alg.Valid()
  {
    exists k: nat ::
      && Fits(alg, n, k)
      && (forall j: nat :: j < k ==> !Fits(alg, n, j))
      && pad == [0x80] + Zeros(k) + StandardLength(alg, 8 * n)
  }

  /** The fewest zeros before the length field, found without a search. */
  ghost function StandardZeros<S(!new)>(alg: Alg<S>, n: nat): nat
    requires alg.Valid()
  {
    ZeroCount(alg, alg.Rem(n)) + 8 - alg.lengthSize
  }

  lemma StandardZerosIsFewest<S(!new)>(alg: Alg<S>, n: nat, j: nat)
    requires alg.Valid()
    ensures Fits(alg, n, StandardZeros(alg, n))
    ensures j < StandardZeros(alg, n) ==> !Fits(alg, n, j)
  {
    var z, r := StandardZeros(alg, n), alg.Rem(n);
    if alg.blockSize == 64 {
      FewestZeros(n, 64, 8, n / 64, r, z, j);
    } else {
      FewestZeros(n, 128, 16, n / 128, r, z, j);
    }
  }

  /** z zeros fill the block if the length field fits after n bytes, or the next one; fewer never do. */
  lemma FewestZeros(n: nat, block: nat, field: nat, q: nat, r: nat, z: nat, j: nat)
    requires r < block && field < block && n == block * q + r
    requires z == (if r + 1 + field <= block then block else block + block) - field - (r + 1)
    ensures (n + 1 + z + field) % block == 0
    ensures j < z ==> (n + 1 + j + field) % block != 0
  {
    var end := r + 1 + j + field;
    assert block * (q + 1) == block * q + block && block * (q + 2) == block * q + block + block;
    if r + 1 + field <= block {
      ModUnique(n + 1 + z + field, block, q + 1, 0);
      if j < z {
        ModUnique(n + 1 + j + field, block, q, end);
      }
    } else {
      ModUnique(n + 1 + z + field, block, q + 2, 0);
      if j < z {
        ModUnique(n + 1 + j + field, block, q + 1, end - block);
      }
    }
  }

  /** There is one standard padding. */
  lemma StandardIsUnique<S(!new)>(alg: Alg<S>, n: nat, pad: seq<byte>)
    requires alg.Valid()
    ensures IsStandard(alg, n, pad)
       <==> pad == [0x80] + Zeros(StandardZeros(alg, n)) + StandardLength(alg, 8 * n)
  {
    var z := StandardZeros(alg, n);
    forall j: nat ensures Fits(alg, n, z) && (j < z ==> !Fits(alg, n, j)) {
      StandardZerosIsFewest(alg, n, j);
    }
    if IsStandard(alg, n, pad) {
      var k: nat :| Fits(alg, n, k) && (forall j: nat :: j < k ==> !Fits(alg, n, j))
                    && pad == [0x80] + Zeros(k) + StandardLength(alg, 8 * n);
      assert k == z;
    }
  }

  lemma LengthFieldModulo(bigEndian: bool, x: nat)
    ensures StoreLength(bigEndian, x % TWO_TO_64) == StoreLength(bigEndian, x)
  {
    assert Pow256(8) == TWO_TO_64;
    LowBytes(8, x);
  }

  lemma {:induction false} ZeroBytes(k: nat)
    ensures BigEndian(k, 0) == Zeros(k)
  {
    if k > 0 {
      ZeroBytes(k - 1);
    }
  }

  lemma HighHalf(x: nat)
    ensures x / TWO_TO_64 % TWO_TO_64 == 0 <==> x % (TWO_TO_64 * TWO_TO_64) < TWO_TO_64
  {
    var h := x / TWO_TO_64;
    assert x == TWO_TO_64 * h + x % TWO_TO_64;
    assert h == TWO_TO_64 * (h / TWO_TO_64) + h % TWO_TO_64;
    assert x % (TWO_TO_64 * TWO_TO_64) == TWO_TO_64 * (h % TWO_TO_64) + x % TWO_TO_64;
  }

  /** The high half of a 16-byte length is zero exactly when the low 128 bits of the length fit in 64. */
  lemma WideLength(x: nat)
    ensures BigEndian(16, x) == Zeros(8) + BigEndian(8, x) <==> x % (TWO_TO_64 * TWO_TO_64) < TWO_TO_64
  {
    var h := x / TWO_TO_64;
    BigEndianSplit(8, 8, x);
    Shifted8(x);
    HighHalf(x);
    hide BigEndian;
    ZeroBytes(8);
    assert Pow256(8) == TWO_TO_64;
    LowBytes(8, h);
    if BigEndian(8, h) == Zeros(8) {
      BigEndianInjective(8, h % TWO_TO_64, 0);
    }
    var w := BigEndian(16, x);
    assert w[..8] == BigEndian(8, h);
    assert (Zeros(8) + BigEndian(8, x))[..8] == Zeros(8);
  }

  /** Eight zeros too many before a short field stand for the high half of a wide one. */
  lemma WideField(k: nat, wide: seq<byte>, narrow: seq<byte>)
    ensures [0x80] + Zeros(k + 8) + narrow == [0x80] + Zeros(k) + wide <==> wide == Zeros(8) + narrow
  {
    var front, x, y := [0x80] + Zeros(k), [0x80] + Zeros(k + 8) + narrow, [0x80] + Zeros(k) + wide;
    assert x == front + (Zeros(8) + narrow) && y == front + wide;
    assert x[k + 1..] == Zeros(8) + narrow && y[k + 1..] == wide;
  }

  /** What done appends is the standard padding for SHA-1, SHA-256, MD5 and RIPEMD-160 whatever the length,
      and for SHA-384 and SHA-512 exactly when the length, taken modulo 2^128 bits, is under 2^64 bits. */
  lemma PadIsStandard<S(!new)>(alg: Alg<S>, n: nat)
    requires alg.Valid()
    ensures IsStandard(alg, n, Pad(alg, n))
       <==> (alg.lengthSize == 8 || 8 * n % (TWO_TO_64 * TWO_TO_64) < TWO_TO_64)
  {
    StandardIsUnique(alg, n, Pad(alg, n));
    LengthFieldModulo(alg.bigEndian, 8 * n);
    hide IsStandard, Zeros, BigEndian, LittleEndian;
    if alg.lengthSize == 16 {
      WideField(StandardZeros(alg, n), BigEndian(16, 8 * n), BigEndian(8, 8 * n));
      WideLength(8 * n);
    }
  }

  /** So the digest is the one the standard defines, with the same lengths excepted for SHA-384 and SHA-512. */
  lemma HashIsStandard<S(!new)>(alg: Alg<S>, message: seq<byte>, pad: seq<byte>)
    requires alg.Valid() && IsStandard(alg, |message|, pad)
    requires alg.lengthSize == 8 || 8 * |message| % (TWO_TO_64 * TWO_TO_64) < TWO_TO_64
    ensures Hash(alg, message) == alg.digest(Fold(alg.compress, alg.init, Blocks(alg.blockSize, message + pad)))
  {
    PadIsStandard(alg, |message|);
    StandardIsUnique(alg, |message|, pad);
    StandardIsUnique(alg, |message|, Pad(alg, |message|));
    hide Pad, IsStandard, Fold, Blocks;
  }

  /** The first length for which SHA-384 and SHA-512 leave the standard is 2^61 bytes, which are 2^64 bits. */
  lemma FirstDifference<S(!new)>(alg: Alg<S>, n: nat)
    requires alg.Valid() && alg.lengthSize == 16
    ensures n < 0x2000_0000_0000_0000 ==> IsStandard(alg, n, Pad(alg, n))
    ensures n == 0x2000_0000_0000_0000 ==> !IsStandard(alg, n, Pad(alg, n))
  {
    hide IsStandard, Pad;
    PadIsStandard(alg, n);
    if n <= 0x2000_0000_0000_0000 {
      ModUnique(8 * n, TWO_TO_64 * TWO_TO_64, 0, 8 * n);
    }
  }

  /** The digest of the fold of the compression function over the blocks of the message with the standard padding. */
  ghost predicate IsStandardHash<S(!new)>(alg: Alg<S>, message: seq<byte>, digest: seq<byte>)
    requires alg.Valid()
  {
    exists pad :: IsStandard(alg, |message|, pad)
               && digest == alg.digest(Fold(alg.compress, alg.init, Blocks(alg.blockSize, message + pad)))
  }

  lemma StandardHash<S(!new)>(alg: Alg<S>, message: seq<byte>)
    requires alg.Valid()
    requires alg.lengthSize == 8 || 8 * |message| % (TWO_TO_64 * TWO_TO_64) < TWO_TO_64
    ensures IsStandardHash(alg, message, Hash(alg, message))
  {
    PadIsStandard(alg, |message|);
    hide Pad, IsStandard, Fold, Blocks;
  }

  /** Padding fills whole blocks, and no padding with room for the length field fills fewer. */
  lemma PadFillsFewestBlocks<S(!new)>(alg: Alg<S>, n: nat, t: nat)
    requires alg.Valid()
    ensures alg.Rem(n + |Pad(alg, n)|) == 0
    ensures t >= 1 + alg.lengthSize && alg.Rem(n + t) == 0 ==> t >= |Pad(alg, n)|
  {
    StandardZerosIsFewest(alg, n, 0);
    if t >= 1 + alg.lengthSize {
      StandardZerosIsFewest(alg, n, t - 1 - alg.lengthSize);
    }
  }

  lemma PadSize<S(!new)>(alg: Alg<S>, n: nat)
    requires alg.Valid()
    ensures alg.lengthSize < |Pad(alg, n)| <= alg.lengthSize + 128
  {}

  lemma TailLength<S(!new)>(alg: Alg<S>, data: seq<byte>)
    requires alg.Valid()
    ensures |Tail(alg.blockSize, data)| == alg.Rem(|data|)
  {
    hide Tail;
    if alg.blockSize == 64 {
      TailIsRemainder(64, data);
    } else {
      TailIsRemainder(128, data);
    }
  }

  /** Nothing is left over when a padded message is cut into blocks. */
  lemma PaddedIsWhole<S(!new)>(alg: Alg<S>, message: seq<byte>, padded: seq<byte>)
    requires alg.Valid() && padded == message + Pad(alg, |message|)
    ensures Tail(alg.blockSize, padded) == []
  {
    hide *;
    PadFillsFewestBlocks(alg, |message|, 0);
    assert |padded| == |message| + |Pad(alg, |message|)|;
    TailLength(alg, padded);
    assert |Tail(alg.blockSize, padded)| == 0;
  }

  /** The last eight bytes hold the length. */
  lemma PaddedEnd<S(!new)>(alg: Alg<S>, message: seq<byte>)
    requires alg.Valid()
    ensures var p := message + Pad(alg, |message|);
            |p| >= 9 && p[|p| - 8..] == StoreLength(alg.bigEndian, 8 * |message| % TWO_TO_64)
  {}

  lemma StoreLengthInjective(bigEndian: bool, x: nat, y: nat)
    requires x < TWO_TO_64 && y < TWO_TO_64 && StoreLength(bigEndian, x) == StoreLength(bigEndian, y)
    ensures x == y
  {
    assert Pow256(8) == TWO_TO_64;
    if bigEndian {
      BigEndianInjective(8, x, y);
    } else {
      LittleEndianInjective(8, x, y);
    }
  }

  lemma NearLengths(a: nat, b: nat)
    requires 8 * a % TWO_TO_64 == 8 * b % TWO_TO_64 && -128 <= a - b <= 128
    ensures a == b
  {
    var p, q := 8 * a / TWO_TO_64, 8 * b / TWO_TO_64;
    assert 8 * (a - b) == TWO_TO_64 * (p - q);
  }

  /** Padding is injective on messages of every length. */
  lemma PadInjective<S(!new)>(alg: Alg<S>, m1: seq<byte>, m2: seq<byte>)
    requires alg.Valid() && m1 + Pad(alg, |m1|) == m2 + Pad(alg, |m2|)
    ensures m1 == m2
  {
    PaddedEnd(alg, m1);
    PaddedEnd(alg, m2);
    StoreLengthInjective(alg.bigEndian, 8 * |m1| % TWO_TO_64, 8 * |m2| % TWO_TO_64);
    PadSize(alg, |m1|);
    PadSize(alg, |m2|);
    var p1, p2 := Pad(alg, |m1|), Pad(alg, |m2|);
    assert |m1| + |p1| == |m2| + |p2|;
    hide Pad;
    NearLengths(|m1|, |m2|);
    assert (m1 + p1)[..|m1|] == m1 && (m2 + p2)[..|m2|] == m2;
  }
}
