/** What the operations that the code and the definitions of the hashes share do to single bits and bytes, said in the
    terms of the standards and without the expressions that compute them. */
module Primitives {
  import opened Words
  import Sha1
  import Sha256
  import Sha512
  import Md5
  import Rmd160

  // Rotations: bit i moves n places, round the end. The proofs take the counts four at a time.

  lemma RolMovesBits(x: bv32, n: Shift, i: bv32)
    requires i < 32
    ensures (Rol(x, n) >> i) & 1 == (x >> ((i - n) & 31)) & 1
  {
    if n < 4 {} else if n < 8 {} else if n < 12 {} else if n < 16 {}
    else if n < 20 {} else if n < 24 {} else if n < 28 {} else {}
  }

  lemma RorMovesBits(x: bv32, n: Shift, i: bv32)
    requires i < 32
    ensures (Ror(x, n) >> i) & 1 == (x >> ((i + n) & 31)) & 1
  {
    if n < 4 {} else if n < 8 {} else if n < 12 {} else if n < 16 {}
    else if n < 20 {} else if n < 24 {} else if n < 28 {} else {}
  }

  /** The same for the counts that SHA-512 uses. */
  lemma Ror64MovesBits(x: bv64, n: bv64, i: bv64)
    requires n == 1 || n == 8 || n == 14 || n == 18 || n == 19 || n == 28 || n == 34 || n == 39 || n == 41 || n == 61
    requires i < 64
    ensures (Ror64(x, n) >> i) & 1 == (x >> ((i + n) & 63)) & 1
  {
    if n == 1 {} else if n == 8 {} else if n == 14 {} else if n == 18 {} else if n == 19 {}
    else if n == 28 {} else if n == 34 {} else if n == 39 {} else if n == 41 {} else {}
  }

  /** Bit i of the exclusive or of four words is the parity of their bits i. */
  lemma Xor4IsParity(x: bv32, y: bv32, z: bv32, w: bv32, i: bv32)
    requires i < 32
    ensures (Xor4(x, y, z, w) >> i) & 1 == ((x >> i) + (y >> i) + (z >> i) + (w >> i)) & 1
  {
    if i < 4 {} else if i < 8 {} else if i < 12 {} else if i < 16 {}
    else if i < 20 {} else if i < 24 {} else if i < 28 {} else {}
  }

  // The functions of section 4.1.2 of FIPS 180-4: a rotation takes the bit from further up, round the end, and a
  // shift leaves zeros at the top.

  lemma Sha256BigSigma0Bits(x: bv32, i: bv32)
    requires i < 32
    ensures (Sha256.BigSigma0(x) >> i) & 1
         == ((x >> ((i + 2) & 31)) ^ (x >> ((i + 13) & 31)) ^ (x >> ((i + 22) & 31))) & 1
  {
    if i < 8 {} else if i < 16 {} else if i < 24 {} else {}
  }

  lemma Sha256BigSigma1Bits(x: bv32, i: bv32)
    requires i < 32
    ensures (Sha256.BigSigma1(x) >> i) & 1
         == ((x >> ((i + 6) & 31)) ^ (x >> ((i + 11) & 31)) ^ (x >> ((i + 25) & 31))) & 1
  {
    if i < 8 {} else if i < 16 {} else if i < 24 {} else {}
  }

  lemma Sha256Gamma0Bits(x: bv32, i: bv32)
    requires i < 32
    ensures (Sha256.Gamma0(x) >> i) & 1
         == ((x >> ((i + 7) & 31)) ^ (x >> ((i + 18) & 31)) ^ (if i < 29 then x >> (i + 3) else 0)) & 1
  {
    if i < 8 {} else if i < 16 {} else if i < 24 {} else {}
  }

  lemma Sha256Gamma1Bits(x: bv32, i: bv32)
    requires i < 32
    ensures (Sha256.Gamma1(x) >> i) & 1
         == ((x >> ((i + 17) & 31)) ^ (x >> ((i + 19) & 31)) ^ (if i < 22 then x >> (i + 10) else 0)) & 1
  {
    if i < 8 {} else if i < 16 {} else if i < 24 {} else {}
  }

  // The functions of section 4.1.3 of FIPS 180-4: a rotation takes the bit from further up, round the end, and a
  // shift leaves zeros at the top.

  lemma Sha512BigSigma0Bits(x: bv64, i: bv64)
    requires i < 64
    ensures (Sha512.BigSigma0(x) >> i) & 1
         == ((x >> ((i + 28) & 63)) ^ (x >> ((i + 34) & 63)) ^ (x >> ((i + 39) & 63))) & 1
  {
    if i < 8 {} else if i < 16 {} else if i < 24 {} else if i < 32 {}
    else if i < 40 {} else if i < 48 {} else if i < 56 {} else {}
  }

  lemma Sha512BigSigma1Bits(x: bv64, i: bv64)
    requires i < 64
    ensures (Sha512.BigSigma1(x) >> i) & 1
         == ((x >> ((i + 14) & 63)) ^ (x >> ((i + 18) & 63)) ^ (x >> ((i + 41) & 63))) & 1
  {
    if i < 8 {} else if i < 16 {} else if i < 24 {} else if i < 32 {}
    else if i < 40 {} else if i < 48 {} else if i < 56 {} else {}
  }

  lemma Sha512Gamma0Bits(x: bv64, i: bv64)
    requires i < 64
    ensures (Sha512.Gamma0(x) >> i) & 1
         == ((x >> ((i + 1) & 63)) ^ (x >> ((i + 8) & 63)) ^ (if i < 57 then x >> (i + 7) else 0)) & 1
  {
    if i < 8 {} else if i < 16 {} else if i < 24 {} else if i < 32 {}
    else if i < 40 {} else if i < 48 {} else if i < 56 {} else {}
  }

  lemma Sha512Gamma1Bits(x: bv64, i: bv64)
    requires i < 64
    ensures (Sha512.Gamma1(x) >> i) & 1
         == ((x >> ((i + 19) & 63)) ^ (x >> ((i + 61) & 63)) ^ (if i < 58 then x >> (i + 6) else 0)) & 1
  {
    if i < 8 {} else if i < 16 {} else if i < 24 {} else if i < 32 {}
    else if i < 40 {} else if i < 48 {} else if i < 56 {} else {}
  }

  // The functions of three words: a choice takes bit i of one word or another, a majority takes the bit of x where x and
  // y agree and that of z where they differ, and a parity adds the bits up.

  /** Section 4.1.1 of FIPS 180-4. */
  lemma Sha1FunctionBits(x: bv32, y: bv32, z: bv32, i: bv32)
    requires i < 32
    ensures (Sha1.Ch(x, y, z) >> i) & 1 == (if (x >> i) & 1 == 1 then y >> i else z >> i) & 1
    ensures (Sha1.Parity(x, y, z) >> i) & 1 == ((x >> i) + (y >> i) + (z >> i)) & 1
    ensures (Sha1.Maj(x, y, z) >> i) & 1 == (if (x >> i) & 1 == (y >> i) & 1 then x >> i else z >> i) & 1
  {
    if i < 8 {} else if i < 16 {} else if i < 24 {} else {}
  }

  /** Section 4.1.2 of FIPS 180-4. */
  lemma Sha256FunctionBits(x: bv32, y: bv32, z: bv32, i: bv32)
    requires i < 32
    ensures (Sha256.StdCh(x, y, z) >> i) & 1 == (if (x >> i) & 1 == 1 then y >> i else z >> i) & 1
    ensures (Sha256.StdMaj(x, y, z) >> i) & 1 == (if (x >> i) & 1 == (y >> i) & 1 then x >> i else z >> i) & 1
  {
    if i < 8 {} else if i < 16 {} else if i < 24 {} else {}
  }

  // Section 4.1.3 of FIPS 180-4.

  lemma Sha512ChBits(x: bv64, y: bv64, z: bv64, i: bv64)
    requires i < 64
    ensures (Sha512.StdCh(x, y, z) >> i) & 1 == (if (x >> i) & 1 == 1 then y >> i else z >> i) & 1
  {
    if i < 8 {} else if i < 16 {} else if i < 24 {} else if i < 32 {}
    else if i < 40 {} else if i < 48 {} else if i < 56 {} else {}
  }

  lemma Sha512MajBits(x: bv64, y: bv64, z: bv64, i: bv64)
    requires i < 64
    ensures (Sha512.StdMaj(x, y, z) >> i) & 1 == (if (x >> i) & 1 == (y >> i) & 1 then x >> i else z >> i) & 1
  {
    if i < 8 {} else if i < 16 {} else if i < 24 {} else if i < 32 {}
    else if i < 40 {} else if i < 48 {} else if i < 56 {} else {}
  }

  // Section 3.4 of RFC 1321.

  lemma Md5ChoiceBits(x: bv32, y: bv32, z: bv32, i: bv32)
    requires i < 32
    ensures (Md5.StdF(x, y, z) >> i) & 1 == (if (x >> i) & 1 == 1 then y >> i else z >> i) & 1
    ensures (Md5.StdG(x, y, z) >> i) & 1 == (if (z >> i) & 1 == 1 then x >> i else y >> i) & 1
  {
    if i < 8 {} else if i < 16 {} else if i < 24 {} else {}
  }

  lemma Md5ParityBits(x: bv32, y: bv32, z: bv32, i: bv32)
    requires i < 32
    ensures (Md5.StdH(x, y, z) >> i) & 1 == ((x >> i) + (y >> i) + (z >> i)) & 1
  {
    if i < 8 {} else if i < 16 {} else if i < 24 {} else {}
  }

  lemma Md5NegationBits(x: bv32, y: bv32, z: bv32, i: bv32)
    requires i < 32
    ensures (Md5.StdI(x, y, z) >> i) & 1 == 1 <==> ((y >> i) & 1 == 1) != ((x >> i) & 1 == 1 || (z >> i) & 1 == 0)
  {
    if i < 8 {} else if i < 16 {} else if i < 24 {} else {}
  }

  // RIPEMD-160.

  lemma Rmd160FBits(x: bv32, y: bv32, z: bv32, i: bv32)
    requires i < 32
    ensures (Rmd160.F(x, y, z) >> i) & 1 == ((x >> i) + (y >> i) + (z >> i)) & 1
  {
    if i < 8 {} else if i < 16 {} else if i < 24 {} else {}
  }

  lemma Rmd160GBits(x: bv32, y: bv32, z: bv32, i: bv32)
    requires i < 32
    ensures (Rmd160.G(x, y, z) >> i) & 1 == (if (x >> i) & 1 == 1 then y >> i else z >> i) & 1
  {
    if i < 8 {} else if i < 16 {} else if i < 24 {} else {}
  }

  lemma Rmd160HBits(x: bv32, y: bv32, z: bv32, i: bv32)
    requires i < 32
    ensures (Rmd160.H(x, y, z) >> i) & 1 == 1 <==> ((x >> i) & 1 == 1 || (y >> i) & 1 == 0) != ((z >> i) & 1 == 1)
  {
    if i < 8 {} else if i < 16 {} else if i < 24 {} else {}
  }

  lemma Rmd160IBits(x: bv32, y: bv32, z: bv32, i: bv32)
    requires i < 32
    ensures (Rmd160.I(x, y, z) >> i) & 1 == (if (z >> i) & 1 == 1 then x >> i else y >> i) & 1
  {
    if i < 8 {} else if i < 16 {} else if i < 24 {} else {}
  }

  lemma Rmd160JBits(x: bv32, y: bv32, z: bv32, i: bv32)
    requires i < 32
    ensures (Rmd160.J(x, y, z) >> i) & 1 == 1 <==> ((x >> i) & 1 == 1) != ((y >> i) & 1 == 1 || (z >> i) & 1 == 0)
  {
    if i < 8 {} else if i < 16 {} else if i < 24 {} else {}
  }

  // Sums.

  /** Adding is counting on from x: adding zero, and adding one more. */
  lemma AddCounts(x: bv32, y: bv32)
    ensures Add(x, 0) == x && Add(x, y + 1) == Add(x, y) + 1
  {}

  lemma Add64Counts(x: bv64, y: bv64)
    ensures Add64(x, 0) == x && Add64(x, y + 1) == Add64(x, y) + 1
  {}

  /** The longer sums count in the same way in each of their terms. */
  lemma Sum3Counts(x: bv32, y: bv32, z: bv32)
    ensures Rmd160.Sum3(x, y, 0) == Add(x, y) && Rmd160.Sum3(x, y, z + 1) == Rmd160.Sum3(x, y, z) + 1
  {}

  lemma Sum4Counts(x: bv32, y: bv32, z: bv32, w: bv32)
    ensures Sum4(x, y, 0, w) == Rmd160.Sum3(w, x, y) && Sum4(x, y, z + 1, w) == Sum4(x, y, z, w) + 1
  {}

  lemma Sum5Counts(x: bv32, y: bv32, z: bv32, k: bv32, w: bv32)
    ensures Sum5(x, y, z, k, 0) == Sum4(y, z, k, x) && Sum5(x, y, z, k, w + 1) == Sum5(x, y, z, k, w) + 1
  {}

  lemma Sum64x4Counts(x: bv64, y: bv64, z: bv64, w: bv64)
    ensures Sum64x4(x, y, 0, w) == Add64(Add64(w, x), y) && Sum64x4(x, y, z + 1, w) == Sum64x4(x, y, z, w) + 1
  {}

  lemma Sum64x5Counts(x: bv64, y: bv64, z: bv64, k: bv64, w: bv64)
    ensures Sum64x5(x, y, z, k, 0) == Sum64x4(y, z, k, x) && Sum64x5(x, y, z, k, w + 1) == Sum64x5(x, y, z, k, w) + 1
  {}

  // Loads: which byte stands where in the word.

  lemma Load32HPlaces(b: seq<byte>)
    requires |b| == 4
    ensures Load32H(b) & 0xff == b[3] as bv32 && (Load32H(b) >> 8) & 0xff == b[2] as bv32
    ensures (Load32H(b) >> 16) & 0xff == b[1] as bv32 && Load32H(b) >> 24 == b[0] as bv32
  {}

  lemma Load32LPlaces(b: seq<byte>)
    requires |b| == 4
    ensures Load32L(b) & 0xff == b[0] as bv32 && (Load32L(b) >> 8) & 0xff == b[1] as bv32
    ensures (Load32L(b) >> 16) & 0xff == b[2] as bv32 && Load32L(b) >> 24 == b[3] as bv32
  {}

  lemma Load64HPlaces(b: seq<byte>)
    requires |b| == 8
    ensures Load64H(b) & 0xff == b[7] as bv64 && (Load64H(b) >> 8) & 0xff == b[6] as bv64
    ensures (Load64H(b) >> 16) & 0xff == b[5] as bv64 && (Load64H(b) >> 24) & 0xff == b[4] as bv64
    ensures (Load64H(b) >> 32) & 0xff == b[3] as bv64 && (Load64H(b) >> 40) & 0xff == b[2] as bv64
    ensures (Load64H(b) >> 48) & 0xff == b[1] as bv64 && Load64H(b) >> 56 == b[0] as bv64
  {}
}
