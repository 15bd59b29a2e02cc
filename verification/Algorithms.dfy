/** The hashes of the library as instances of the streaming interface. */
module Algorithms {
  import opened Folds
  import opened Words
  import opened Encoding
  import opened Registers
  import opened Padding
  import opened Streaming
  import opened MerkleDamgard
  import opened Standards
  import opened Arithmetic
  import Sha1
  import Sha256
  import Sha512
  import Md5
  import Rmd160

  // The digests: the words of the state in the byte order of the hash.

  function Words4<W>(s: Regs4<W>): seq<W> { [s.a, s.b, s.c, s.d] }

  function Words5<W>(s: Regs5<W>): seq<W> { [s.a, s.b, s.c, s.d, s.e] }

  function Words8<W>(s: Regs8<W>): seq<W> { [s.a, s.b, s.c, s.d, s.e, s.f, s.g, s.h] }

  const SHA1: Alg<Regs5<bv32>> := Alg(
    64, 8, true,
    (s, b) => if |b| == 64 then Sha1.Compress(s, b) else s,
    Regs5(0x67452301, 0xefcdab89, 0x98badcfe, 0x10325476, 0xc3d2e1f0),
    20, s => Bytes32H(Words5(s)))

  const SHA256: Alg<Regs8<bv32>> := Alg(
    64, 8, true,
    (s, b) => if |b| == 64 then Sha256.Compress(s, b) else s,
    Regs8(0x6A09E667, 0xBB67AE85, 0x3C6EF372, 0xA54FF53A, 0x510E527F, 0x9B05688C, 0x1F83D9AB, 0x5BE0CD19),
    32, s => Bytes32H(Words8(s)))

  const SHA512: Alg<Regs8<bv64>> := Alg(
    128, 16, true,
    (s, b) => if |b| == 128 then Sha512.Compress(s, b) else s,
    Regs8(0x6a09e667f3bcc908, 0xbb67ae8584caa73b, 0x3c6ef372fe94f82b, 0xa54ff53a5f1d36f1,
          0x510e527fade682d1, 0x9b05688c2b3e6c1f, 0x1f83d9abfb41bd6b, 0x5be0cd19137e2179),
    64, s => Bytes64H(Words8(s)))

  /** SHA-512 from the initial state of sha384_init; sha384_done keeps 48 bytes of its digest. */
  const SHA384: Alg<Regs8<bv64>> := SHA512.(
    init := Regs8(0xcbbb9d5dc1059ed8, 0x629a292a367cd507, 0x9159015a3070dd17, 0x152fecd8f70e5939,
                  0x67332667ffc00b31, 0x8eb44a8768581511, 0xdb0c2e0d64f98fa7, 0x47b5481dbefa4fa4))

  const MD5: Alg<Regs4<bv32>> := Alg(
    64, 8, false,
    (s, b) => if |b| == 64 then Md5.Compress(s, b) else s,
    Regs4(0x67452301, 0xefcdab89, 0x98badcfe, 0x10325476),
    16, s => Bytes32L(Words4(s)))

  const RMD160: Alg<Regs5<bv32>> := Alg(
    64, 8, false,
    (s, b) => if |b| == 64 then Rmd160.Compress(s, b) else s,
    Regs5(0x67452301, 0xefcdab89, 0x98badcfe, 0x10325476, 0xc3d2e1f0),
    20, s => Bytes32L(Words5(s)))

  // Every digest has its size and shows the whole chaining value, so the streaming theorems and the
  // collision reduction hold of every hash.

  lemma Sha1Ready()
    ensures SHA1.Valid() && DigestInjective(SHA1)
  {
    forall s, t | SHA1.digest(s) == SHA1.digest(t) ensures s == t {
      Bytes32HInjective(Words5(s), Words5(t));
      assert Words5(s) == Words5(t);
    }
  }

  lemma Sha256Ready()
    ensures SHA256.Valid() && DigestInjective(SHA256)
  {
    forall s, t | SHA256.digest(s) == SHA256.digest(t) ensures s == t {
      Bytes32HInjective(Words8(s), Words8(t));
    }
  }

  lemma Sha512Ready()
    ensures SHA512.Valid() && DigestInjective(SHA512) && SHA384.Valid()
  {
    forall s, t | SHA512.digest(s) == SHA512.digest(t) ensures s == t {
      Bytes64HInjective(Words8(s), Words8(t));
    }
  }

  lemma Md5Ready()
    ensures MD5.Valid() && DigestInjective(MD5)
  {
    forall s, t | MD5.digest(s) == MD5.digest(t) ensures s == t {
      Bytes32LInjective(Words4(s), Words4(t));
    }
  }

  lemma Rmd160Ready()
    ensures RMD160.Valid() && DigestInjective(RMD160)
  {
    forall s, t | RMD160.digest(s) == RMD160.digest(t) ensures s == t {
      Bytes32LInjective(Words5(s), Words5(t));
    }
  }

  // Collisions of each hash: two different messages under 2^61 bytes with one digest lead to a collision of its
  // compression function.

  lemma Sha1Collision(m1: seq<byte>, m2: seq<byte>)
    requires DifferentShort(m1, m2) && SHA1.Valid() && Hash(SHA1, m1) == Hash(SHA1, m2)
    ensures WalkCollides(SHA1, m1, m2)
  {
    Sha1Ready();
    ShortLengthsTell(m1, m2);
    CollisionReduction(SHA1, m1, m2);
  }

  lemma Sha256Collision(m1: seq<byte>, m2: seq<byte>)
    requires DifferentShort(m1, m2) && SHA256.Valid() && Hash(SHA256, m1) == Hash(SHA256, m2)
    ensures WalkCollides(SHA256, m1, m2)
  {
    Sha256Ready();
    ShortLengthsTell(m1, m2);
    CollisionReduction(SHA256, m1, m2);
  }

  lemma Sha512Collision(m1: seq<byte>, m2: seq<byte>)
    requires DifferentShort(m1, m2) && SHA512.Valid() && Hash(SHA512, m1) == Hash(SHA512, m2)
    ensures WalkCollides(SHA512, m1, m2)
  {
    Sha512Ready();
    ShortLengthsTell(m1, m2);
    CollisionReduction(SHA512, m1, m2);
  }

  lemma Md5Collision(m1: seq<byte>, m2: seq<byte>)
    requires DifferentShort(m1, m2) && MD5.Valid() && Hash(MD5, m1) == Hash(MD5, m2)
    ensures WalkCollides(MD5, m1, m2)
  {
    Md5Ready();
    ShortLengthsTell(m1, m2);
    CollisionReduction(MD5, m1, m2);
  }

  lemma Rmd160Collision(m1: seq<byte>, m2: seq<byte>)
    requires DifferentShort(m1, m2) && RMD160.Valid() && Hash(RMD160, m1) == Hash(RMD160, m2)
    ensures WalkCollides(RMD160, m1, m2)
  {
    Rmd160Ready();
    ShortLengthsTell(m1, m2);
    CollisionReduction(RMD160, m1, m2);
  }

  // The padding and the digest of each hash as the standards spell them out.

  lemma PadFillsUp<S(!new)>(alg: Alg<S>, n: nat)
    requires alg.Valid()
    ensures FillsUp(alg.blockSize, alg.lengthSize, n, Pad(alg, n))
  {
    PadFillsFewestBlocks(alg, n, 0);
    hide BigEndian, LittleEndian;
    assert |Pad(alg, n)| == 1 + ZeroCount(alg, alg.Rem(n)) + 8;
  }

  lemma PadEnd<S(!new)>(alg: Alg<S>, n: nat)
    requires alg.Valid()
    ensures var p := Pad(alg, n);
            && |p| >= 9 && p[|p| - 8..] == StoreLength(alg.bigEndian, 8 * n % TWO_TO_64)
            && (alg.lengthSize == 16 ==>
                  |p| >= 17 && p[|p| - 16..] == Zeros(8) + StoreLength(alg.bigEndian, 8 * n % TWO_TO_64))
  {
    hide BigEndian, LittleEndian;
  }

  lemma StoredLength(n: nat)
    ensures Number(BigEndian(8, 8 * n % TWO_TO_64)) == 8 * n % TWO_TO_64
    ensures Number(Zeros(8) + BigEndian(8, 8 * n % TWO_TO_64)) == 8 * n % TWO_TO_64
    ensures NumberReversed(LittleEndian(8, 8 * n % TWO_TO_64)) == 8 * n % TWO_TO_64
  {
    var x := 8 * n % TWO_TO_64;
    assert Pow256(8) == TWO_TO_64;
    EncodedNumber(8, x);
    ModUnique(x, TWO_TO_64, 0, x);
    LeadingZeros(Zeros(8), BigEndian(8, x));
  }

  lemma Sha1Pad(n: nat)
    ensures SHA1.Valid() && IsPad64(n, Pad(SHA1, n))
  {
    Sha1Ready();
    PadFillsUp(SHA1, n);
    PadEnd(SHA1, n);
    StoredLength(n);
    hide Pad, BigEndian, LittleEndian, Number, NumberReversed, Zeros;
  }

  lemma Sha256Pad(n: nat)
    ensures SHA256.Valid() && IsPad64(n, Pad(SHA256, n))
  {
    Sha256Ready();
    PadFillsUp(SHA256, n);
    PadEnd(SHA256, n);
    StoredLength(n);
    hide Pad, BigEndian, LittleEndian, Number, NumberReversed, Zeros;
  }

  lemma Sha512Pad(n: nat)
    ensures SHA512.Valid() && IsPad128(n, Pad(SHA512, n)) && SHA384.Valid() && IsPad128(n, Pad(SHA384, n))
  {
    Sha512Ready();
    PadFillsUp(SHA512, n);
    PadEnd(SHA512, n);
    StoredLength(n);
    hide Pad, BigEndian, LittleEndian, Number, NumberReversed, Zeros;
  }

  lemma Md5Pad(n: nat)
    ensures MD5.Valid() && IsPad64Reversed(n, Pad(MD5, n))
  {
    Md5Ready();
    PadFillsUp(MD5, n);
    PadEnd(MD5, n);
    StoredLength(n);
    hide Pad, BigEndian, LittleEndian, Number, NumberReversed, Zeros;
  }

  lemma Rmd160Pad(n: nat)
    ensures RMD160.Valid() && IsPad64Reversed(n, Pad(RMD160, n))
  {
    Rmd160Ready();
    PadFillsUp(RMD160, n);
    PadEnd(RMD160, n);
    StoredLength(n);
    hide Pad, BigEndian, LittleEndian, Number, NumberReversed, Zeros;
  }

  lemma {:induction false} Sha1Fold(s: Sha1.State, blocks: seq<seq<byte>>)
    requires AreBlocks(64, blocks)
    ensures Fold(SHA1.compress, s, blocks) == Sha1Chain(s, blocks)
  {
    if blocks != [] {
      var k := |blocks| - 1;
      assert blocks[k] in blocks;
      Sha1Fold(s, blocks[..k]);
    }
  }

  lemma Sha1DigestBytes(s: Sha1.State)
    ensures SHA1.digest(s) == Sha1Digest(s)
  {
    hide Sha1Digest;
    Sha1DigestIsBytes(s);
  }

  lemma {:induction false} Sha256Fold(s: Sha256.State, blocks: seq<seq<byte>>)
    requires AreBlocks(64, blocks)
    ensures Fold(SHA256.compress, s, blocks) == Sha256Chain(s, blocks)
  {
    if blocks != [] {
      var k := |blocks| - 1;
      assert blocks[k] in blocks;
      Sha256Fold(s, blocks[..k]);
    }
  }

  lemma Sha256DigestBytes(s: Sha256.State)
    ensures SHA256.digest(s) == Sha256Digest(s)
  {
    hide Sha256Digest;
    Sha256DigestIsBytes(s);
  }

  lemma {:induction false} Sha512Fold(s: Sha512.State, blocks: seq<seq<byte>>)
    requires AreBlocks(128, blocks)
    ensures Fold(SHA512.compress, s, blocks) == Sha512Chain(s, blocks)
  {
    if blocks != [] {
      var k := |blocks| - 1;
      assert blocks[k] in blocks;
      Sha512Fold(s, blocks[..k]);
    }
  }

  lemma Sha512DigestBytes(s: Sha512.State)
    ensures SHA512.digest(s) == Sha512Digest(s)
  {
    hide Sha512Digest;
    Sha512DigestIsBytes(s);
  }

  lemma {:induction false} Md5Fold(s: Md5.State, blocks: seq<seq<byte>>)
    requires AreBlocks(64, blocks)
    ensures Fold(MD5.compress, s, blocks) == Md5Chain(s, blocks)
  {
    if blocks != [] {
      var k := |blocks| - 1;
      assert blocks[k] in blocks;
      Md5Fold(s, blocks[..k]);
    }
  }

  lemma Md5DigestBytes(s: Md5.State)
    ensures MD5.digest(s) == Md5Digest(s)
  {
    hide Md5Digest;
    Md5DigestIsBytes(s);
  }

  lemma {:induction false} Rmd160Fold(s: Rmd160.State, blocks: seq<seq<byte>>)
    requires AreBlocks(64, blocks)
    ensures Fold(RMD160.compress, s, blocks) == Rmd160Chain(s, blocks)
  {
    if blocks != [] {
      var k := |blocks| - 1;
      assert blocks[k] in blocks;
      Rmd160Fold(s, blocks[..k]);
    }
  }

  lemma Rmd160DigestBytes(s: Rmd160.State)
    ensures RMD160.digest(s) == Rmd160Digest(s)
  {
    hide Rmd160Digest;
    Rmd160DigestIsBytes(s);
  }

  lemma Sha1Hash(message: seq<byte>)
    ensures SHA1.Valid() && IsSha1(SHA1.init, message, Hash(SHA1, message))
  {
    hide Pad, Blocks, Fold, IsPad64, Sha1Digest, Sha1Chain;
    var pad := Pad(SHA1, |message|);
    Sha1Pad(|message|);
    var blocks := Blocks(64, message + pad);
    Sha1Fold(SHA1.init, blocks);
    Sha1DigestBytes(Sha1Chain(SHA1.init, blocks));
  }

  lemma Sha256Hash(message: seq<byte>)
    ensures SHA256.Valid() && IsSha256(SHA256.init, message, Hash(SHA256, message))
  {
    hide Pad, Blocks, Fold, IsPad64, Sha256Digest, Sha256Chain;
    var pad := Pad(SHA256, |message|);
    Sha256Pad(|message|);
    var blocks := Blocks(64, message + pad);
    Sha256Fold(SHA256.init, blocks);
    Sha256DigestBytes(Sha256Chain(SHA256.init, blocks));
  }

  lemma Sha512Hash(message: seq<byte>)
    ensures SHA512.Valid() && IsSha512(SHA512.init, message, Hash(SHA512, message))
  {
    hide Pad, Blocks, Fold, IsPad128, Sha512Digest, Sha512Chain;
    var pad := Pad(SHA512, |message|);
    Sha512Pad(|message|);
    var blocks := Blocks(128, message + pad);
    Sha512Fold(SHA512.init, blocks);
    Sha512DigestBytes(Sha512Chain(SHA512.init, blocks));
  }

  lemma Md5Hash(message: seq<byte>)
    ensures MD5.Valid() && IsMd5(MD5.init, message, Hash(MD5, message))
  {
    hide Pad, Blocks, Fold, IsPad64Reversed, Md5Digest, Md5Chain;
    var pad := Pad(MD5, |message|);
    Md5Pad(|message|);
    var blocks := Blocks(64, message + pad);
    Md5Fold(MD5.init, blocks);
    Md5DigestBytes(Md5Chain(MD5.init, blocks));
  }

  lemma Rmd160Hash(message: seq<byte>)
    ensures RMD160.Valid() && IsRmd160(RMD160.init, message, Hash(RMD160, message))
  {
    hide Pad, Blocks, Fold, IsPad64Reversed, Rmd160Digest, Rmd160Chain;
    var pad := Pad(RMD160, |message|);
    Rmd160Pad(|message|);
    var blocks := Blocks(64, message + pad);
    Rmd160Fold(RMD160.init, blocks);
    Rmd160DigestBytes(Rmd160Chain(RMD160.init, blocks));
  }

  /** sha384_done keeps the first 48 bytes of the digest. */
  lemma Sha384Hash(message: seq<byte>)
    ensures SHA384.Valid() && |Hash(SHA384, message)| == 64
    ensures IsSha384(SHA384.init, message, Hash(SHA384, message)[..48])
  {
    hide Pad, Blocks, Fold, IsPad128, Sha512Chain, Store64H, Concat;
    var pad := Pad(SHA384, |message|);
    Sha512Pad(|message|);
    var blocks := Blocks(128, message + pad);
    Sha512Fold(SHA384.init, blocks);
    var s := Sha512Chain(SHA384.init, blocks);
    Sha512DigestBytes(s);
    Sha384DigestBytes(s);
  }

  // Each hash from the code's interface: over any chunking no call fails and the digest is the standard's.

  method Sha1Chunks(chunks: seq<seq<byte>>) returns (digest: seq<byte>, failed: bool)
    ensures !failed && SHA1.Valid()
    ensures IsStandardHash(SHA1, Concat(chunks), digest)
    ensures IsSha1(SHA1.init, Concat(chunks), digest)
  {
    Sha1Ready();
    StandardHash(SHA1, Concat(chunks));
    Sha1Hash(Concat(chunks));
    digest, failed := HashChunks(SHA1, chunks);
  }

  method Sha256Chunks(chunks: seq<seq<byte>>) returns (digest: seq<byte>, failed: bool)
    ensures !failed && SHA256.Valid()
    ensures IsStandardHash(SHA256, Concat(chunks), digest)
    ensures IsSha256(SHA256.init, Concat(chunks), digest)
  {
    Sha256Ready();
    StandardHash(SHA256, Concat(chunks));
    Sha256Hash(Concat(chunks));
    digest, failed := HashChunks(SHA256, chunks);
  }

  method Sha512Chunks(chunks: seq<seq<byte>>) returns (digest: seq<byte>, failed: bool)
    ensures !failed && SHA512.Valid()
    ensures 8 * |Concat(chunks)| % (TWO_TO_64 * TWO_TO_64) < TWO_TO_64 ==>
              IsStandardHash(SHA512, Concat(chunks), digest)
    ensures IsSha512(SHA512.init, Concat(chunks), digest)
  {
    Sha512Ready();
    if 8 * |Concat(chunks)| % (TWO_TO_64 * TWO_TO_64) < TWO_TO_64 {
      StandardHash(SHA512, Concat(chunks));
    }
    Sha512Hash(Concat(chunks));
    digest, failed := HashChunks(SHA512, chunks);
  }

  method Md5Chunks(chunks: seq<seq<byte>>) returns (digest: seq<byte>, failed: bool)
    ensures !failed && MD5.Valid()
    ensures IsStandardHash(MD5, Concat(chunks), digest)
    ensures IsMd5(MD5.init, Concat(chunks), digest)
  {
    Md5Ready();
    StandardHash(MD5, Concat(chunks));
    Md5Hash(Concat(chunks));
    digest, failed := HashChunks(MD5, chunks);
  }

  method Rmd160Chunks(chunks: seq<seq<byte>>) returns (digest: seq<byte>, failed: bool)
    ensures !failed && RMD160.Valid()
    ensures IsStandardHash(RMD160, Concat(chunks), digest)
    ensures IsRmd160(RMD160.init, Concat(chunks), digest)
  {
    Rmd160Ready();
    StandardHash(RMD160, Concat(chunks));
    Rmd160Hash(Concat(chunks));
    digest, failed := HashChunks(RMD160, chunks);
  }

  /** The first length for which SHA-512 and SHA-384 leave the standard. */
  lemma LongMessageDiffers()
    ensures SHA512.Valid() && SHA384.Valid()
    ensures !IsStandard(SHA512, 0x2000_0000_0000_0000, Pad(SHA512, 0x2000_0000_0000_0000))
    ensures !IsStandard(SHA384, 0x2000_0000_0000_0000, Pad(SHA384, 0x2000_0000_0000_0000))
  {
    Sha512Ready();
    hide IsStandard, Pad;
    FirstDifference(SHA512, 0x2000_0000_0000_0000);
    FirstDifference(SHA384, 0x2000_0000_0000_0000);
  }

  /** SHA-384 keeps 48 bytes of a digest computed on the standard padding. */
  lemma Sha384Standard(message: seq<byte>)
    requires 8 * |message| % (TWO_TO_64 * TWO_TO_64) < TWO_TO_64
    ensures SHA384.Valid() && IsStandardHash(SHA384, message, Hash(SHA384, message))
  {
    Sha512Ready();
    StandardHash(SHA384, message);
  }

  /** sha384_done: done into a local buffer of 64 bytes, of which 48 are the digest. */
  method Sha384Done<S(!new)>(md: Md<S>, out: array<byte>) returns (err: Status)
    requires md.Valid() && md.alg.digestSize == 64 && out.Length >= 48 && out != md.buf
    modifies md, md.buf, out
    ensures old(md.curlen) >= md.alg.blockSize ==> err == InvalidArg && unchanged(md) && unchanged(md.buf) && unchanged(out)
    ensures old(md.curlen) < md.alg.blockSize ==> err == Ok && md.state == Finish(md.alg, old(md.Abs()))
    ensures old(md.curlen) < md.alg.blockSize ==> out[..] == md.alg.digest(md.state)[..48] + old(out[48..])
  {
    if md.curlen >= md.buf.Length {
      return InvalidArg;
    }
    hide Finish;
    var buf := new byte[64];
    err := md.Done(buf);
    assert buf[..] == md.alg.digest(md.state);
    forall i | 0 <= i < 48 {
      out[i] := buf[i];
    }
  }

  /** SHA-384 of a message, in chunks: 48 bytes of the one-shot hash. */
  method Sha384Chunks(chunks: seq<seq<byte>>) returns (digest: seq<byte>, failed: bool)
    ensures !failed && digest == Hash(SHA384, Concat(chunks))[..48]
    ensures IsSha384(SHA384.init, Concat(chunks), digest)
  {
    hide Absorb, Finish, Chain, IsSha384;
    Sha512Ready();
    Sha384Hash(Concat(chunks));
    var md := new Md(SHA384);
    failed := ProcessAll(md, chunks);
    FinishIsChain(SHA384, Concat(chunks));
    var out := new byte[48];
    var err := Sha384Done(md, out);
    failed := failed || err != Ok;
    digest := out[..];
  }
}
