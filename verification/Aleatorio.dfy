/** The Park-Miller generator of Aleatorio.h, which multiplies modulo 2^31 - 1 by Schrage's method. */
module Aleatorio {
  import opened Arithmetic

  const IA := 16807
  const IM := 2147483647
  const IQ := 127773
  const IR := 2836
  const MASK := 123459876
  const SEED := 12345

  /** The inverse of IA modulo IM. */
  const INVERSE := 1407677000

  // Exclusive or of integers, as on the two's complement words of the code.

  function XorNat(a: nat, b: nat): nat
    decreases a + b
  {
    if a == 0 && b == 0 then 0
    else 2 * XorNat(a / 2, b / 2) + (if a % 2 == b % 2 then 0 else 1)
  }

  function Xor(x: int, m: nat): int {
    if x >= 0 then XorNat(x, m) else -1 - XorNat(-1 - x, m)
  }

  lemma {:induction false} XorNatTwice(a: nat, b: nat)
    ensures XorNat(XorNat(a, b), b) == a
    decreases a + b
  {
    if a > 0 || b > 0 {
      XorNatTwice(a / 2, b / 2);
    }
  }

  lemma XorTwice(x: int, m: nat)
    ensures Xor(Xor(x, m), m) == x
  {
    XorNatTwice(if x >= 0 then x else -1 - x, m);
    hide XorNat;
  }

  lemma {:induction false} XorNatSum(a: nat, b: nat)
    ensures XorNat(a, b) <= a + b
    decreases a + b
  {
    if a > 0 || b > 0 {
      XorNatSum(a / 2, b / 2);
    }
  }

  function Pow2(k: nat): nat {
    if k == 0 then 1 else 2 * Pow2(k - 1)
  }

  lemma Pow2Plus8(k: nat)
    ensures Pow2(k + 8) == 256 * Pow2(k)
  {
    assert Pow2(k + 2) == 4 * Pow2(k);
    assert Pow2(k + 4) == 4 * Pow2(k + 2);
    assert Pow2(k + 6) == 4 * Pow2(k + 4);
  }

  lemma Pow2Of31()
    ensures Pow2(31) == 0x8000_0000
  {
    Pow2Plus8(7);
    Pow2Plus8(15);
    Pow2Plus8(23);
    assert Pow2(7) == 128;
  }

  lemma {:induction false} XorNatBelow(a: nat, b: nat, k: nat)
    requires a < Pow2(k) && b < Pow2(k)
    ensures XorNat(a, b) < Pow2(k)
    decreases k
  {
    if k > 0 {
      XorNatBelow(a / 2, b / 2, k - 1);
    }
  }

  /** Bit k of an integer in two's complement of any width. */
  function BitOf(x: int, k: nat): int { Halved(x, k) % 2 }

  /** Halving, rounded down, k times. */
  function Halved(x: int, k: nat): int
    decreases k
  {
    if k == 0 then x else Halved(x / 2, k - 1)
  }

  lemma {:induction false} XorNatBits(a: nat, b: nat, k: nat)
    ensures BitOf(XorNat(a, b), k) == (BitOf(a, k) + BitOf(b, k)) % 2
    decreases k
  {
    var x := XorNat(a, b);
    assert x / 2 == XorNat(a / 2, b / 2) && (x % 2 == 0 <==> a % 2 == b % 2);
    if k > 0 {
      XorNatBits(a / 2, b / 2, k - 1);
    }
  }

  lemma {:induction false} ComplementBits(x: nat, k: nat)
    ensures BitOf(-1 - x, k) == 1 - BitOf(x, k)
    decreases k
  {
    assert (-1 - x) / 2 == -1 - x / 2;
    if k > 0 {
      ComplementBits(x / 2, k - 1);
    }
  }

  /** Each bit of the exclusive or, of negative numbers too, is one if and only if the two bits differ. */
  lemma XorBits(x: int, m: nat, k: nat)
    ensures BitOf(Xor(x, m), k) == (BitOf(x, k) + BitOf(m, k)) % 2
  {
    if x >= 0 {
      XorNatBits(x, m, k);
    } else {
      XorNatBits(-1 - x, m, k);
      ComplementBits(XorNat(-1 - x, m), k);
      ComplementBits(-1 - x, k);
    }
    hide XorNat, Halved;
  }

  /** Division of the code, which truncates. */
  function Quotient(y: int, d: int): int
    requires d > 0
  {
    if y >= 0 then y / d else -(-y / d)
  }

  /** The value computed before the test for a negative result. */
  function Intermediate(y: int): int {
    var k := Quotient(y, IQ);
    IA * (y - k * IQ) - IR * k
  }

  /** The update of the masked seed. */
  function Update(y: int): int {
    var t := Intermediate(y);
    if t < 0 then t + IM else t
  }

  /** ran0 on the seed. */
  function Ran0(idum: int): int {
    Xor(Update(Xor(idum, MASK)), MASK)
  }

  // Schrage's method

  /** The largest masked seed, plus one, below which no intermediate value leaves (-2^31, 2^31). */
  const LIMIT := IQ * 757223

  lemma IntermediateIsCongruent(y: int)
    ensures (IA * y - Intermediate(y)) % IM == 0
  {
    var k := Quotient(y, IQ);
    assert IM == IA * IQ + IR;
    assert IA * y - Intermediate(y) == IM * k;
  }

  /** The masked seeds that the update multiplies correctly: what it subtracts does not outweigh what it adds by more than
      IM, or by IM and more if the seed is negative. */
  predicate Safe(y: int) {
    if y >= 0 then IR * (y / IQ) <= IA * (y % IQ) + IM else IR * (-y / IQ) < IA * (-y % IQ) + IM
  }

  lemma SafeIsInRange(y: int)
    ensures Safe(y) <==> -IM <= Intermediate(y) < IM
  {
    var n := if y >= 0 then y else -y;
    assert n == IQ * (n / IQ) + n % IQ;
  }

  /** The update is the multiplication modulo IM exactly for those seeds. */
  lemma UpdateIsProduct(y: int)
    ensures Update(y) == IA * y % IM <==> Safe(y)
  {
    IntermediateIsCongruent(y);
    SafeIsInRange(y);
    hide Intermediate, Safe;
    var t, p := Intermediate(y), IA * y;
    var d := p / IM - (p - t) / IM;
    assert p == IM * (p / IM) + p % IM;
    assert t == IM * d + p % IM;
  }

  /** So ran0 is the multiplication of the masked seed exactly if the masked seed is such. */
  lemma Ran0IsProduct(x: int)
    ensures Ran0(x) == Xor(IA * Xor(x, MASK) % IM, MASK) <==> Safe(Xor(x, MASK))
  {
    var y := Xor(x, MASK);
    UpdateIsProduct(y);
    XorTwice(Update(y), MASK);
    XorTwice(IA * y % IM, MASK);
    hide Xor, Update, Safe;
  }

  /** Every masked seed of magnitude under LIMIT is multiplied correctly, and without overflow of 32 bits. */
  lemma SchrageIsExact(y: int)
    requires -LIMIT < y < LIMIT
    ensures -0x8000_0000 < Intermediate(y) < 0x8000_0000
    ensures Safe(y) && Update(y) == IA * y % IM
  {
    UpdateIsProduct(y);
    SafeIsInRange(y);
    if y >= 0 {
      assert 0 <= y - y / IQ * IQ < IQ && y / IQ < 757223;
    } else {
      assert 0 <= -y - -y / IQ * IQ < IQ && -y / IQ < 757223;
    }
  }

  /** The comment in the code allows any integer seed, but the seed that is masked to LIMIT makes ran0 negative. LIMIT and
      its negative are not safe, although LIMIT + 1 is again. */
  lemma LimitFails()
    ensures var x := XorNat(LIMIT, MASK);
            Xor(x, MASK) == LIMIT && Ran0(x) < 0 && Ran0(x) != Xor(IA * LIMIT % IM, MASK)
    ensures !Safe(LIMIT) && !Safe(-LIMIT) && Safe(LIMIT + 1)
  {
    assert LIMIT / IQ == 757223 && LIMIT % IQ == 0;
    assert (LIMIT + 1) / IQ == 757223 && (LIMIT + 1) % IQ == 1;
    assert Intermediate(LIMIT) == -IR * 757223;
    XorNatTwice(LIMIT, MASK);
    Ran0IsProduct(XorNat(LIMIT, MASK));
    hide XorNat;
  }

  /** The update permutes 1..IM - 1; multiplication by INVERSE undoes it. */
  lemma UpdateIsPermutation(y: int)
    requires 1 <= y < IM
    ensures 1 <= Update(y) < IM && INVERSE * Update(y) % IM == y
    ensures 1 <= INVERSE * y % IM < IM && Update(INVERSE * y % IM) == y
  {
    SchrageIsExact(y);
    assert IA * INVERSE % IM == 1;
    var u := IA * y % IM;
    assert IA * y == IM * (IA * y / IM) + u;
    ProductUndone(IA, INVERSE, y);
    ProductUndone(INVERSE, IA, y);
    SchrageIsExact(INVERSE * y % IM);
  }

  /** Multiplying by p and then by its inverse q gives y back. */
  lemma ProductUndone(p: nat, q: nat, y: nat)
    requires y < IM && p * q % IM == 1
    ensures q * (p * y % IM) % IM == y
  {
    var a, c := p * y / IM, p * q / IM;
    assert p * y == IM * a + p * y % IM;
    assert p * q == IM * c + 1;
    assert q * (p * y % IM) == q * (p * y) - q * (IM * a);
    assert q * (p * y) == (p * q) * y == IM * (c * y) + y;
    assert q * (p * y % IM) == IM * (c * y - q * a) + y;
    ModUnique(q * (p * y % IM), IM, c * y - q * a, y);
  }

  function Power(b: nat, k: nat): nat {
    if k == 0 then 1 else b * Power(b, k - 1)
  }

  /** k calls of ran0 on one seed. */
  function Iterate(x: int, k: nat): int {
    if k == 0 then x else Ran0(Iterate(x, k - 1))
  }

  /** Unmasking at the end of a call and masking at the start of the next cancel. */
  lemma MaskedStep(x: int)
    requires 1 <= Xor(x, MASK) < IM
    ensures Ran0(x) >= 0 && Xor(Ran0(x), MASK) == IA * Xor(x, MASK) % IM && 1 <= Xor(Ran0(x), MASK) < IM
  {
    var z := Xor(x, MASK);
    UpdateIsPermutation(z);
    SchrageIsExact(z);
    XorTwice(Update(z), MASK);
    hide Update, XorNat;
  }

  /** So k calls multiply the masked seed by IA to the power k. */
  lemma {:induction false} Ran0IsParkMiller(x: nat, k: nat)
    requires 1 <= Xor(x, MASK) < IM
    ensures Iterate(x, k) >= 0
    ensures 1 <= Xor(Iterate(x, k), MASK) < IM
    ensures Xor(Iterate(x, k), MASK) == Power(IA, k) * Xor(x, MASK) % IM
  {
    hide Xor, Ran0;
    if k > 0 {
      Ran0IsParkMiller(x, k - 1);
      MaskedStep(Iterate(x, k - 1));
      MoreFactors(Power(IA, k - 1), Xor(x, MASK));
    } else {
      ModUnique(Xor(x, MASK), IM, 0, Xor(x, MASK));
    }
  }

  lemma MoreFactors(p: nat, y: nat)
    ensures IA * (p * y % IM) % IM == (IA * p) * y % IM
  {
    var c, z := p * y / IM, p * y % IM;
    assert p * y == IM * c + z;
    var d, r := IA * z / IM, IA * z % IM;
    assert (IA * p) * y == IA * (p * y) == IM * (IA * c + d) + r;
    ModUnique((IA * p) * y, IM, IA * c + d, r);
  }

  /** The global seed. */
  class Generator {
    var semente: int

    constructor ()
      ensures semente == 12345
    {
      semente := SEED;
    }

    /** ran0(&semente). */
    method Ran0Step()
      modifies this
      ensures semente == Ran0(old(semente))
    {
      semente := Xor(semente, MASK);
      var k := Quotient(semente, IQ);
      semente := IA * (semente - k * IQ) - IR * k;
      if semente < 0 {
        semente := semente + IM;
      }
      semente := Xor(semente, MASK);
    }

    /** The seed updates of gerarNumeroInteiro and gerarNumeroReal; seg is the time. */
    method Advance(seg: int)
      modifies this
      ensures semente == Next(old(semente), seg)
      ensures 0 <= old(semente) < 0x8000_0000 && 0 <= seg < 0x10_0000_0000 ==>
                0 <= semente < 0x8000_0000 && semente == Product(Product(old(semente) + seg) + seg)
    {
      hide Ran0, Product;
      NextInRange(semente, seg);
      NextIsProducts(semente, seg);
      semente := semente + seg;
      Ran0Step();
      semente := semente + seg;
      Ran0Step();
    }
  }

  /** The seed after a generator call at time seg. */
  function Next(seed: int, seg: int): int {
    Ran0(Ran0(seed + seg) + seg)
  }

  lemma Ran0OfNatural(x: int)
    requires 0 <= x < 0x8000_0000 + 0x10_0000_0000
    ensures Ran0(x) == XorNat(IA * XorNat(x, MASK) % IM, MASK)
  {
    XorNatSum(x, MASK);
    SchrageIsExact(XorNat(x, MASK));
  }

  lemma Ran0InRange(x: int)
    requires 0 <= x < 0x8000_0000 + 0x10_0000_0000
    ensures 0 <= Ran0(x) < 0x8000_0000
  {
    Ran0OfNatural(x);
    Pow2Of31();
    XorNatBelow(IA * XorNat(x, MASK) % IM, MASK, 31);
  }

  lemma NextInRange(seed: int, seg: int)
    ensures 0 <= seed < 0x8000_0000 && 0 <= seg < 0x10_0000_0000 ==> 0 <= Next(seed, seg) < 0x8000_0000
  {
    if 0 <= seed < 0x8000_0000 && 0 <= seg < 0x10_0000_0000 {
      hide Ran0, XorNat;
      Ran0InRange(seed + seg);
      Ran0InRange(Ran0(seed + seg) + seg);
    }
  }

  /** A masked number multiplied modulo 2^31 - 1 and masked again. */
  function Product(x: nat): nat {
    XorNat(16807 * XorNat(x, 123459876) % 0x7fff_ffff, 123459876)
  }

  lemma NextIsProducts(seed: int, seg: int)
    ensures 0 <= seed < 0x8000_0000 && 0 <= seg < 0x10_0000_0000 ==>
              Next(seed, seg) == Product(Product(seed + seg) + seg)
  {
    if 0 <= seed < 0x8000_0000 && 0 <= seg < 0x10_0000_0000 {
      hide Ran0, XorNat;
      Ran0OfNatural(seed + seg);
      Ran0InRange(seed + seg);
      Ran0OfNatural(Ran0(seed + seg) + seg);
    }
  }

  /** The seed after calls at the given times. */
  function SeedAfter(times: seq<int>): int {
    if times == [] then SEED else Next(SeedAfter(times[..|times| - 1]), times[|times| - 1])
  }

  /** Over any run at times from 0 to 2^36 the seed stays a non-negative 31-bit number. */
  lemma {:induction false} SeedStaysInRange(times: seq<int>)
    requires forall k :: 0 <= k < |times| ==> 0 <= times[k] < 0x10_0000_0000
    ensures 0 <= SeedAfter(times) < 0x8000_0000
  {
    if times != [] {
      hide Next;
      SeedStaysInRange(times[..|times| - 1]);
      NextInRange(SeedAfter(times[..|times| - 1]), times[|times| - 1]);
    }
  }
}
