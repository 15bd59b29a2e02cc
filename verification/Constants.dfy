/** The constants of the hashes are the ones that the standards define by formulas. */
module Constants {
  import opened Tables
  import opened Words
  import opened Encoding
  import Sha1
  import Sha256
  import Sha512
  import Md5
  import Rmd160
  import opened Algorithms

  const TWO_TO_30: int := 0x4000_0000
  const TWO_TO_32: int := 0x1_0000_0000

  function Square(x: int): int { x * x }

  function Cube(x: int): int { x * x * x }

  /** r is the square root of p in units of 1 / unit, rounded down. */
  predicate IsSquareRoot(p: int, unit: int, r: int) {
    0 <= r && Square(r) <= p * Square(unit) < Square(r + 1)
  }

  /** r is the cube root of p in units of 1 / unit, rounded down. */
  predicate IsCubeRoot(p: int, unit: int, r: int) {
    0 <= r && Cube(r) <= p * Cube(unit) < Cube(r + 1)
  }

  /** The initial state of SHA-256: the first 32 bits of the fractional parts of the square roots of the first
      eight primes (section 5.3.3 of FIPS 180-4). */
  lemma Sha256Init()
    ensures var s := SHA256.init;
            && IsSquareRoot(2, TWO_TO_32, 1 * TWO_TO_32 + s.a as int)
            && IsSquareRoot(3, TWO_TO_32, 1 * TWO_TO_32 + s.b as int)
            && IsSquareRoot(5, TWO_TO_32, 2 * TWO_TO_32 + s.c as int)
            && IsSquareRoot(7, TWO_TO_32, 2 * TWO_TO_32 + s.d as int)
            && IsSquareRoot(11, TWO_TO_32, 3 * TWO_TO_32 + s.e as int)
            && IsSquareRoot(13, TWO_TO_32, 3 * TWO_TO_32 + s.f as int)
            && IsSquareRoot(17, TWO_TO_32, 4 * TWO_TO_32 + s.g as int)
            && IsSquareRoot(19, TWO_TO_32, 4 * TWO_TO_32 + s.h as int)
  {}

  /** The initial state of SHA-512: the same with 64 bits (section 5.3.5 of FIPS 180-4). */
  lemma Sha512Init()
    ensures var s := SHA512.init;
            && IsSquareRoot(2, TWO_TO_64, 1 * TWO_TO_64 + s.a as int)
            && IsSquareRoot(3, TWO_TO_64, 1 * TWO_TO_64 + s.b as int)
            && IsSquareRoot(5, TWO_TO_64, 2 * TWO_TO_64 + s.c as int)
            && IsSquareRoot(7, TWO_TO_64, 2 * TWO_TO_64 + s.d as int)
            && IsSquareRoot(11, TWO_TO_64, 3 * TWO_TO_64 + s.e as int)
            && IsSquareRoot(13, TWO_TO_64, 3 * TWO_TO_64 + s.f as int)
            && IsSquareRoot(17, TWO_TO_64, 4 * TWO_TO_64 + s.g as int)
            && IsSquareRoot(19, TWO_TO_64, 4 * TWO_TO_64 + s.h as int)
  {}

  /** The initial state of SHA-384: the same with the next eight primes (section 5.3.4 of FIPS 180-4). */
  lemma Sha384Init()
    ensures var s := SHA384.init;
            && IsSquareRoot(23, TWO_TO_64, 4 * TWO_TO_64 + s.a as int)
            && IsSquareRoot(29, TWO_TO_64, 5 * TWO_TO_64 + s.b as int)
            && IsSquareRoot(31, TWO_TO_64, 5 * TWO_TO_64 + s.c as int)
            && IsSquareRoot(37, TWO_TO_64, 6 * TWO_TO_64 + s.d as int)
            && IsSquareRoot(41, TWO_TO_64, 6 * TWO_TO_64 + s.e as int)
            && IsSquareRoot(43, TWO_TO_64, 6 * TWO_TO_64 + s.f as int)
            && IsSquareRoot(47, TWO_TO_64, 6 * TWO_TO_64 + s.g as int)
            && IsSquareRoot(53, TWO_TO_64, 7 * TWO_TO_64 + s.h as int)
  {}

  /** The initial state of MD5, as bytes in order (section 3.3 of RFC 1321); SHA-1 and RIPEMD-160 start with it. */
  lemma Md5Init()
    ensures MD5.digest(MD5.init) == [0x01, 0x23, 0x45, 0x67, 0x89, 0xab, 0xcd, 0xef,
                                     0xfe, 0xdc, 0xba, 0x98, 0x76, 0x54, 0x32, 0x10]
    ensures SHA1.init == RMD160.init
    ensures var s, t := SHA1.init, MD5.init; s.a == t.a && s.b == t.b && s.c == t.c && s.d == t.d
  {}

  /** The round constants of SHA-1: square roots of 2, 3, 5 and 10 in units of 2^-30. */
  lemma Sha1Constants(j: nat)
    ensures IsSquareRoot(if j < 20 then 2 else if j < 40 then 3 else if j < 60 then 5 else 10, TWO_TO_30,
                         Sha1.K(j) as int)
  {}

  /** The constants of RIPEMD-160: square roots of 2, 3, 5 and 7 in the left line after the first round, and cube
      roots of the same numbers in the right line before the last. */
  lemma Rmd160Constants(j: nat)
    ensures j >= 16 ==>
              IsSquareRoot(if j < 32 then 2 else if j < 48 then 3 else if j < 64 then 5 else 7, TWO_TO_30,
                           Rmd160.Constant(Rmd160.Left, j) as int)
    ensures j < 64 ==>
              IsCubeRoot(if j < 16 then 2 else if j < 32 then 3 else if j < 48 then 5 else 7, TWO_TO_30,
                         Rmd160.Constant(Rmd160.Right, j) as int)
  {}

  lemma Cases(j: nat)
    requires j < 16
    ensures j == 0 || j == 1 || j == 2 || j == 3 || j == 4 || j == 5 || j == 6 || j == 7
         || j == 8 || j == 9 || j == 10 || j == 11 || j == 12 || j == 13 || j == 14 || j == 15
  {}

  /** The round constants of SHA-256 are the high halves of the first 64 of SHA-512: both are the first bits of the
      fractional parts of the cube roots of the same primes (sections 4.2.2 and 4.2.3 of FIPS 180-4). */
  lemma SharedConstants(j: nat)
    requires j < 16
    ensures Sha256.K(j) == (Sha512.K(j) >> 32) as bv32
    ensures Sha256.K(16 + j) == (Sha512.K(16 + j) >> 32) as bv32
    ensures Sha256.K(32 + j) == (Sha512.K(32 + j) >> 32) as bv32
    ensures Sha256.K(48 + j) == (Sha512.K(48 + j) >> 32) as bv32
  {
    Cases(j);
  }

  // The round constants of SHA-512: the first 64 bits of the fractional parts of the cube roots of the first eighty
  // primes (section 4.2.3 of FIPS 180-4). The first of the hexadecimal digits is the integer part.

  lemma Sha512ConstantsFirst()
    ensures Sha512.K(1) as int == 0x7137449123ef65cd && IsCubeRoot(3, TWO_TO_64, 0x1_7137449123ef65cd)
    ensures Sha512.K(2) as int == 0xb5c0fbcfec4d3b2f && IsCubeRoot(5, TWO_TO_64, 0x1_b5c0fbcfec4d3b2f)
    ensures Sha512.K(3) as int == 0xe9b5dba58189dbbc && IsCubeRoot(7, TWO_TO_64, 0x1_e9b5dba58189dbbc)
    ensures Sha512.K(4) as int == 0x3956c25bf348b538 && IsCubeRoot(11, TWO_TO_64, 0x2_3956c25bf348b538)
    ensures Sha512.K(5) as int == 0x59f111f1b605d019 && IsCubeRoot(13, TWO_TO_64, 0x2_59f111f1b605d019)
    ensures Sha512.K(6) as int == 0x923f82a4af194f9b && IsCubeRoot(17, TWO_TO_64, 0x2_923f82a4af194f9b)
    ensures Sha512.K(7) as int == 0xab1c5ed5da6d8118 && IsCubeRoot(19, TWO_TO_64, 0x2_ab1c5ed5da6d8118)
    ensures Sha512.K(8) as int == 0xd807aa98a3030242 && IsCubeRoot(23, TWO_TO_64, 0x2_d807aa98a3030242)
    ensures Sha512.K(9) as int == 0x12835b0145706fbe && IsCubeRoot(29, TWO_TO_64, 0x3_12835b0145706fbe)
    ensures Sha512.K(10) as int == 0x243185be4ee4b28c && IsCubeRoot(31, TWO_TO_64, 0x3_243185be4ee4b28c)
    ensures Sha512.K(11) as int == 0x550c7dc3d5ffb4e2 && IsCubeRoot(37, TWO_TO_64, 0x3_550c7dc3d5ffb4e2)
    ensures Sha512.K(12) as int == 0x72be5d74f27b896f && IsCubeRoot(41, TWO_TO_64, 0x3_72be5d74f27b896f)
    ensures Sha512.K(13) as int == 0x80deb1fe3b1696b1 && IsCubeRoot(43, TWO_TO_64, 0x3_80deb1fe3b1696b1)
    ensures Sha512.K(14) as int == 0x9bdc06a725c71235 && IsCubeRoot(47, TWO_TO_64, 0x3_9bdc06a725c71235)
    ensures Sha512.K(15) as int == 0xc19bf174cf692694 && IsCubeRoot(53, TWO_TO_64, 0x3_c19bf174cf692694)
    ensures Sha512.K(0) as int == 0x428a2f98d728ae22 && IsCubeRoot(2, TWO_TO_64, 0x1_428a2f98d728ae22)
  {}

  lemma Sha512ConstantsSecond()
    ensures Sha512.K(16) as int == 0xe49b69c19ef14ad2 && IsCubeRoot(59, TWO_TO_64, 0x3_e49b69c19ef14ad2)
    ensures Sha512.K(17) as int == 0xefbe4786384f25e3 && IsCubeRoot(61, TWO_TO_64, 0x3_efbe4786384f25e3)
    ensures Sha512.K(18) as int == 0x0fc19dc68b8cd5b5 && IsCubeRoot(67, TWO_TO_64, 0x4_0fc19dc68b8cd5b5)
    ensures Sha512.K(19) as int == 0x240ca1cc77ac9c65 && IsCubeRoot(71, TWO_TO_64, 0x4_240ca1cc77ac9c65)
    ensures Sha512.K(20) as int == 0x2de92c6f592b0275 && IsCubeRoot(73, TWO_TO_64, 0x4_2de92c6f592b0275)
    ensures Sha512.K(21) as int == 0x4a7484aa6ea6e483 && IsCubeRoot(79, TWO_TO_64, 0x4_4a7484aa6ea6e483)
    ensures Sha512.K(22) as int == 0x5cb0a9dcbd41fbd4 && IsCubeRoot(83, TWO_TO_64, 0x4_5cb0a9dcbd41fbd4)
    ensures Sha512.K(23) as int == 0x76f988da831153b5 && IsCubeRoot(89, TWO_TO_64, 0x4_76f988da831153b5)
    ensures Sha512.K(24) as int == 0x983e5152ee66dfab && IsCubeRoot(97, TWO_TO_64, 0x4_983e5152ee66dfab)
    ensures Sha512.K(25) as int == 0xa831c66d2db43210 && IsCubeRoot(101, TWO_TO_64, 0x4_a831c66d2db43210)
    ensures Sha512.K(26) as int == 0xb00327c898fb213f && IsCubeRoot(103, TWO_TO_64, 0x4_b00327c898fb213f)
    ensures Sha512.K(27) as int == 0xbf597fc7beef0ee4 && IsCubeRoot(107, TWO_TO_64, 0x4_bf597fc7beef0ee4)
    ensures Sha512.K(28) as int == 0xc6e00bf33da88fc2 && IsCubeRoot(109, TWO_TO_64, 0x4_c6e00bf33da88fc2)
    ensures Sha512.K(29) as int == 0xd5a79147930aa725 && IsCubeRoot(113, TWO_TO_64, 0x4_d5a79147930aa725)
    ensures Sha512.K(30) as int == 0x06ca6351e003826f && IsCubeRoot(127, TWO_TO_64, 0x5_06ca6351e003826f)
    ensures Sha512.K(31) as int == 0x142929670a0e6e70 && IsCubeRoot(131, TWO_TO_64, 0x5_142929670a0e6e70)
  {}

  lemma Sha512ConstantsThird()
    ensures Sha512.K(32) as int == 0x27b70a8546d22ffc && IsCubeRoot(137, TWO_TO_64, 0x5_27b70a8546d22ffc)
    ensures Sha512.K(33) as int == 0x2e1b21385c26c926 && IsCubeRoot(139, TWO_TO_64, 0x5_2e1b21385c26c926)
    ensures Sha512.K(34) as int == 0x4d2c6dfc5ac42aed && IsCubeRoot(149, TWO_TO_64, 0x5_4d2c6dfc5ac42aed)
    ensures Sha512.K(35) as int == 0x53380d139d95b3df && IsCubeRoot(151, TWO_TO_64, 0x5_53380d139d95b3df)
    ensures Sha512.K(36) as int == 0x650a73548baf63de && IsCubeRoot(157, TWO_TO_64, 0x5_650a73548baf63de)
    ensures Sha512.K(37) as int == 0x766a0abb3c77b2a8 && IsCubeRoot(163, TWO_TO_64, 0x5_766a0abb3c77b2a8)
    ensures Sha512.K(38) as int == 0x81c2c92e47edaee6 && IsCubeRoot(167, TWO_TO_64, 0x5_81c2c92e47edaee6)
    ensures Sha512.K(39) as int == 0x92722c851482353b && IsCubeRoot(173, TWO_TO_64, 0x5_92722c851482353b)
    ensures Sha512.K(40) as int == 0xa2bfe8a14cf10364 && IsCubeRoot(179, TWO_TO_64, 0x5_a2bfe8a14cf10364)
    ensures Sha512.K(41) as int == 0xa81a664bbc423001 && IsCubeRoot(181, TWO_TO_64, 0x5_a81a664bbc423001)
    ensures Sha512.K(42) as int == 0xc24b8b70d0f89791 && IsCubeRoot(191, TWO_TO_64, 0x5_c24b8b70d0f89791)
    ensures Sha512.K(43) as int == 0xc76c51a30654be30 && IsCubeRoot(193, TWO_TO_64, 0x5_c76c51a30654be30)
    ensures Sha512.K(44) as int == 0xd192e819d6ef5218 && IsCubeRoot(197, TWO_TO_64, 0x5_d192e819d6ef5218)
    ensures Sha512.K(45) as int == 0xd69906245565a910 && IsCubeRoot(199, TWO_TO_64, 0x5_d69906245565a910)
    ensures Sha512.K(46) as int == 0xf40e35855771202a && IsCubeRoot(211, TWO_TO_64, 0x5_f40e35855771202a)
    ensures Sha512.K(47) as int == 0x106aa07032bbd1b8 && IsCubeRoot(223, TWO_TO_64, 0x6_106aa07032bbd1b8)
  {}

  lemma Sha512ConstantsFourth()
    ensures Sha512.K(48) as int == 0x19a4c116b8d2d0c8 && IsCubeRoot(227, TWO_TO_64, 0x6_19a4c116b8d2d0c8)
    ensures Sha512.K(49) as int == 0x1e376c085141ab53 && IsCubeRoot(229, TWO_TO_64, 0x6_1e376c085141ab53)
    ensures Sha512.K(50) as int == 0x2748774cdf8eeb99 && IsCubeRoot(233, TWO_TO_64, 0x6_2748774cdf8eeb99)
    ensures Sha512.K(51) as int == 0x34b0bcb5e19b48a8 && IsCubeRoot(239, TWO_TO_64, 0x6_34b0bcb5e19b48a8)
    ensures Sha512.K(52) as int == 0x391c0cb3c5c95a63 && IsCubeRoot(241, TWO_TO_64, 0x6_391c0cb3c5c95a63)
    ensures Sha512.K(53) as int == 0x4ed8aa4ae3418acb && IsCubeRoot(251, TWO_TO_64, 0x6_4ed8aa4ae3418acb)
    ensures Sha512.K(54) as int == 0x5b9cca4f7763e373 && IsCubeRoot(257, TWO_TO_64, 0x6_5b9cca4f7763e373)
    ensures Sha512.K(55) as int == 0x682e6ff3d6b2b8a3 && IsCubeRoot(263, TWO_TO_64, 0x6_682e6ff3d6b2b8a3)
    ensures Sha512.K(56) as int == 0x748f82ee5defb2fc && IsCubeRoot(269, TWO_TO_64, 0x6_748f82ee5defb2fc)
    ensures Sha512.K(57) as int == 0x78a5636f43172f60 && IsCubeRoot(271, TWO_TO_64, 0x6_78a5636f43172f60)
    ensures Sha512.K(58) as int == 0x84c87814a1f0ab72 && IsCubeRoot(277, TWO_TO_64, 0x6_84c87814a1f0ab72)
    ensures Sha512.K(59) as int == 0x8cc702081a6439ec && IsCubeRoot(281, TWO_TO_64, 0x6_8cc702081a6439ec)
    ensures Sha512.K(60) as int == 0x90befffa23631e28 && IsCubeRoot(283, TWO_TO_64, 0x6_90befffa23631e28)
    ensures Sha512.K(61) as int == 0xa4506cebde82bde9 && IsCubeRoot(293, TWO_TO_64, 0x6_a4506cebde82bde9)
    ensures Sha512.K(62) as int == 0xbef9a3f7b2c67915 && IsCubeRoot(307, TWO_TO_64, 0x6_bef9a3f7b2c67915)
    ensures Sha512.K(63) as int == 0xc67178f2e372532b && IsCubeRoot(311, TWO_TO_64, 0x6_c67178f2e372532b)
  {}

  lemma Sha512ConstantsFifth()
    ensures Sha512.K(64) as int == 0xca273eceea26619c && IsCubeRoot(313, TWO_TO_64, 0x6_ca273eceea26619c)
    ensures Sha512.K(65) as int == 0xd186b8c721c0c207 && IsCubeRoot(317, TWO_TO_64, 0x6_d186b8c721c0c207)
    ensures Sha512.K(66) as int == 0xeada7dd6cde0eb1e && IsCubeRoot(331, TWO_TO_64, 0x6_eada7dd6cde0eb1e)
    ensures Sha512.K(67) as int == 0xf57d4f7fee6ed178 && IsCubeRoot(337, TWO_TO_64, 0x6_f57d4f7fee6ed178)
    ensures Sha512.K(68) as int == 0x06f067aa72176fba && IsCubeRoot(347, TWO_TO_64, 0x7_06f067aa72176fba)
    ensures Sha512.K(69) as int == 0x0a637dc5a2c898a6 && IsCubeRoot(349, TWO_TO_64, 0x7_0a637dc5a2c898a6)
    ensures Sha512.K(70) as int == 0x113f9804bef90dae && IsCubeRoot(353, TWO_TO_64, 0x7_113f9804bef90dae)
    ensures Sha512.K(71) as int == 0x1b710b35131c471b && IsCubeRoot(359, TWO_TO_64, 0x7_1b710b35131c471b)
    ensures Sha512.K(72) as int == 0x28db77f523047d84 && IsCubeRoot(367, TWO_TO_64, 0x7_28db77f523047d84)
    ensures Sha512.K(73) as int == 0x32caab7b40c72493 && IsCubeRoot(373, TWO_TO_64, 0x7_32caab7b40c72493)
    ensures Sha512.K(74) as int == 0x3c9ebe0a15c9bebc && IsCubeRoot(379, TWO_TO_64, 0x7_3c9ebe0a15c9bebc)
    ensures Sha512.K(75) as int == 0x431d67c49c100d4c && IsCubeRoot(383, TWO_TO_64, 0x7_431d67c49c100d4c)
    ensures Sha512.K(76) as int == 0x4cc5d4becb3e42b6 && IsCubeRoot(389, TWO_TO_64, 0x7_4cc5d4becb3e42b6)
    ensures Sha512.K(77) as int == 0x597f299cfc657e2a && IsCubeRoot(397, TWO_TO_64, 0x7_597f299cfc657e2a)
    ensures Sha512.K(78) as int == 0x5fcb6fab3ad6faec && IsCubeRoot(401, TWO_TO_64, 0x7_5fcb6fab3ad6faec)
    ensures Sha512.K(79) as int == 0x6c44198c4a475817 && IsCubeRoot(409, TWO_TO_64, 0x7_6c44198c4a475817)
  {}

  /** The four rounds of MD5 take the block words in arithmetic progressions modulo 16. */
  lemma Md5WordOrder(j: nat)
    requires j < 16
    ensures Md5.WordIndex(j) == j
    ensures Md5.WordIndex(16 + j) == (5 * j + 1) % 16
    ensures Md5.WordIndex(32 + j) == (3 * j + 5) % 16
    ensures Md5.WordIndex(48 + j) == 7 * j % 16
  {
    Cases(j);
  }

  /** The permutation rho of RIPEMD-160. */
  function Rho(k: nat): nat {
    Pick16(k, 7, 4, 13, 1, 10, 6, 15, 3, 12, 0, 9, 5, 2, 14, 11, 8)
  }

  /** The left line of RIPEMD-160 takes the block words in order and then, in each round, permuted once more by rho;
      the right line starts from the permutation 9j + 5 modulo 16 instead. */
  lemma Rmd160WordOrder(line: Rmd160.Line, j: nat)
    requires j < 16
    ensures Rmd160.WordIndex(line, j) == if line.Left? then j else (9 * j + 5) % 16
    ensures Rmd160.WordIndex(line, 16 + j) == Rho(Rmd160.WordIndex(line, j))
    ensures Rmd160.WordIndex(line, 32 + j) == Rho(Rmd160.WordIndex(line, 16 + j))
    ensures Rmd160.WordIndex(line, 48 + j) == Rho(Rmd160.WordIndex(line, 32 + j))
    ensures Rmd160.WordIndex(line, 64 + j) == Rho(Rmd160.WordIndex(line, 48 + j))
  {
    Cases(j);
  }

  /** The rotations of MD5 depend only on the round and on the place in a row of four operations (section 3.4 of
      RFC 1321). */
  lemma Md5Rotations(j: nat)
    requires j < 16
    ensures Md5.Rotation(j) == [7, 12, 17, 22][j % 4]
    ensures Md5.Rotation(16 + j) == [5, 9, 14, 20][j % 4]
    ensures Md5.Rotation(32 + j) == [4, 11, 16, 23][j % 4]
    ensures Md5.Rotation(48 + j) == [6, 10, 15, 21][j % 4]
  {
    Cases(j);
  }

  /** How far a round of RIPEMD-160 rotates a step that takes block word k. */
  function Shifts(round: nat, k: nat): Shift {
    match round
    case 0 => Pick16(k, 11, 14, 15, 12, 5, 8, 7, 9, 11, 13, 14, 15, 6, 7, 9, 8)
    case 1 => Pick16(k, 12, 13, 11, 15, 6, 9, 9, 7, 12, 15, 11, 13, 7, 8, 7, 7)
    case 2 => Pick16(k, 13, 15, 14, 11, 7, 7, 6, 8, 13, 14, 13, 12, 5, 5, 6, 9)
    case 3 => Pick16(k, 14, 11, 12, 14, 8, 6, 5, 5, 15, 12, 15, 14, 9, 9, 8, 6)
    case _ => Pick16(k, 15, 12, 13, 13, 9, 5, 8, 6, 14, 11, 12, 11, 8, 6, 5, 5)
  }

  /** In both lines the rotation depends only on the round and the block word. */
  lemma Rmd160Rotations(line: Rmd160.Line, j: nat)
    requires j < 16
    ensures Rmd160.Rotation(line, j) == Shifts(0, Rmd160.WordIndex(line, j))
    ensures Rmd160.Rotation(line, 16 + j) == Shifts(1, Rmd160.WordIndex(line, 16 + j))
    ensures Rmd160.Rotation(line, 32 + j) == Shifts(2, Rmd160.WordIndex(line, 32 + j))
    ensures Rmd160.Rotation(line, 48 + j) == Shifts(3, Rmd160.WordIndex(line, 48 + j))
    ensures Rmd160.Rotation(line, 64 + j) == Shifts(4, Rmd160.WordIndex(line, 64 + j))
  {
    if line.Left? {
      Cases(j);
    } else {
      Cases(j);
    }
  }

  /** The fifth word of the initial state of SHA-1 and RIPEMD-160, as the bytes that continue those of MD5. */
  lemma FifthWord()
    ensures Store32L(SHA1.init.e) == [0xf0, 0xe1, 0xd2, 0xc3]
    ensures Store32L(RMD160.init.e) == [0xf0, 0xe1, 0xd2, 0xc3]
  {}
}
