/** The generator of Aleatorio.h has full period: 16807 is a primitive root modulo 2^31 - 1. */
module FullPeriod {
  import opened Arithmetic
  import opened Aleatorio

  /** The period. */
  const N: nat := 2147483646

  // Divisors.

  predicate Divides(d: nat, n: nat) { d > 0 && n % d == 0 }

  lemma Quotients(d: nat, n: nat, m: nat)
    requires d > 0 && n == d * m
    ensures Divides(d, n) && n / d == m
  {
    var k := n / d;
    ModUnique(n, d, m, 0);
    if k < m {
      MulMonotone(d, k + 1, m);
    } else {
      MulMonotone(d, m + 1, k + 1);
    }
  }

  lemma DividesSum(d: nat, a: nat, b: nat)
    requires Divides(d, a)
    ensures Divides(d, b) <==> Divides(d, a + b)
  {
    var i, j, k := a / d, b / d, (a + b) / d;
    assert a == d * i && b == d * j + b % d && a + b == d * k + (a + b) % d;
    assert d * (i + j) == d * i + d * j && d * (k - i) == d * k - d * i;
    ModUnique(a + b, d, i + j, b % d);
  }

  /** Euclid's algorithm by subtraction. */
  function Gcd(a: nat, b: nat): (g: nat)
    requires a > 0 && b > 0
    ensures g > 0
    decreases a + b
  {
    if a == b then a else if a < b then Gcd(a, b - a) else Gcd(a - b, b)
  }

  lemma {:induction false} GcdDivides(a: nat, b: nat)
    requires a > 0 && b > 0
    ensures Divides(Gcd(a, b), a) && Divides(Gcd(a, b), b)
    decreases a + b
  {
    if a == b {
      Quotients(a, a, 1);
    } else if a < b {
      GcdDivides(a, b - a);
      DividesSum(Gcd(a, b), a, b - a);
    } else {
      GcdDivides(a - b, b);
      DividesSum(Gcd(a, b), b, a - b);
    }
  }

  lemma {:induction false} GcdGreatest(c: nat, a: nat, b: nat)
    requires a > 0 && b > 0 && Divides(c, a) && Divides(c, b)
    ensures Divides(c, Gcd(a, b))
    decreases a + b
  {
    if a < b {
      DividesSum(c, a, b - a);
      GcdGreatest(c, a, b - a);
    } else if a > b {
      DividesSum(c, b, a - b);
      GcdGreatest(c, a - b, b);
    }
  }

  lemma {:induction false} GcdScale(k: nat, a: nat, b: nat)
    requires k > 0 && a > 0 && b > 0
    ensures k * a > 0 && k * b > 0 && Gcd(k * a, k * b) == k * Gcd(a, b)
    decreases a + b
  {
    MulMonotone(k, 1, a);
    MulMonotone(k, 1, b);
    if a < b {
      assert k * (b - a) == k * b - k * a;
      GcdScale(k, a, b - a);
    } else if a > b {
      assert k * (a - b) == k * a - k * b;
      GcdScale(k, a - b, b);
    }
  }

  ghost predicate IsPrime(q: nat) {
    q > 1 && forall g: nat :: Divides(g, q) ==> g == 1 || g == q
  }

  /** A prime that divides a product divides one of the factors. */
  lemma PrimeDividesFactor(q: nat, d: nat, m: nat)
    requires IsPrime(q) && d > 0 && m > 0 && Divides(q, d * m)
    ensures Divides(q, d) || Divides(q, m)
  {
    GcdDivides(q, m);
    if Gcd(q, m) == 1 {
      GcdScale(d, q, m);
      Quotients(q, d * q, d);
      GcdGreatest(q, d * q, d * m);
    }
  }

  /** No number from 2 to k divides q. */
  predicate NoDivisor(q: nat, k: nat) { k < 2 || (q % k != 0 && NoDivisor(q, k - 1)) }

  lemma {:induction false} NoDivisorAt(q: nat, k: nat, g: nat)
    requires NoDivisor(q, k) && 2 <= g <= k
    ensures q % g != 0
    decreases k
  {
    if g < k {
      NoDivisorAt(q, k - 1, g);
    }
  }

  lemma PrimeByTrial(q: nat, k: nat)
    requires q > 1 && NoDivisor(q, k) && q < (k + 1) * (k + 1)
    ensures IsPrime(q)
  {
    hide NoDivisor;
    forall g: nat | Divides(g, q) ensures g == 1 || g == q {
      OnlyTrivial(q, k, g, q / g);
    }
  }

  lemma OnlyTrivial(q: nat, k: nat, g: nat, m: nat)
    requires NoDivisor(q, k) && q < (k + 1) * (k + 1) && g > 0 && m > 0 && q == g * m
    ensures g == 1 || m == 1
  {
    hide NoDivisor;
    if g > 1 && m > 1 {
      Quotients(g, q, m);
      Quotients(m, q, g);
      if g <= k {
        NoDivisorAt(q, k, g);
      } else if m <= k {
        NoDivisorAt(q, k, m);
      } else {
        MulMonotone(g, k + 1, m);
        MulMonotone(k + 1, k + 1, g);
      }
    }
  }

  /** The prime factors of the period. */
  const FACTORS: seq<nat> := [2, 3, 3, 7, 11, 31, 151, 331]

  lemma FactorsArePrime()
    ensures forall q :: q in FACTORS ==> IsPrime(q)
  {
    PrimeByTrial(2, 1);
    PrimeByTrial(3, 1);
    PrimeByTrial(7, 2);
    PrimeByTrial(11, 3);
    PrimeByTrial(31, 5);
    assert NoDivisor(151, 6);
    PrimeByTrial(151, 12);
    assert NoDivisor(331, 6);
    assert NoDivisor(331, 12);
    PrimeByTrial(331, 18);
    hide IsPrime;
  }

  function Product(qs: seq<nat>): nat {
    if qs == [] then 1 else qs[0] * Product(qs[1..])
  }

  lemma FactorsOfPeriod()
    ensures Product(FACTORS) == N
  {
    assert FACTORS[4..] == [11, 31, 151, 331];
    assert Product([331]) == 331;
    assert Product([31, 151, 331]) == 31 * 151 * 331;
    assert Product([7, 11, 31, 151, 331]) == 7 * 11 * 31 * 151 * 331;
    assert Product([3, 3, 7, 11, 31, 151, 331]) == 3 * 3 * 7 * 11 * 31 * 151 * 331;
  }

  /** A prime factor of d * m that does not divide m can be taken out of d. */
  lemma TakeOut(q: nat, n: nat, d: nat, m: nat) returns (e: nat)
    requires IsPrime(q) && n > 0 && d > 0 && m > 0 && q * n == d * m && !Divides(q, m)
    ensures e > 0 && d == q * e && n == e * m
  {
    Quotients(q, d * m, n);
    PrimeDividesFactor(q, d, m);
    e := d / q;
    assert d == q * e;
    assert q * n == q * (e * m);
  }

  /** A prime factor of the cofactor. */
  lemma Cofactor(q: nat, n: nat, d: nat, m: nat)
    requires n == d * m && d > 0 && Divides(q, m)
    ensures Divides(q, n) && Divides(d, n / q)
  {
    var k := m / q;
    assert m == q * k && d * m == q * (d * k);
    Quotients(q, n, d * k);
    Quotients(d, d * k, k);
  }

  /** A number over 1 that divides a product of primes is divisible by one of them. */
  lemma {:induction false} SomeFactor(qs: seq<nat>, n: nat, d: nat, m: nat) returns (q: nat)
    requires (forall p :: p in qs ==> IsPrime(p)) && n == Product(qs) && n == d * m && n > 0 && m > 1
    ensures q in qs && Divides(q, m)
    decreases |qs|
  {
    hide IsPrime, Divides;
    if qs == [] {
      MulMonotone(m, 1, d);
      assert false;
    } else if Divides(qs[0], m) {
      q := qs[0];
    } else {
      var rest := Product(qs[1..]);
      var e := TakeOut(qs[0], rest, d, m);
      q := SomeFactor(qs[1..], rest, e, m);
    }
  }

  /** A proper divisor of the period divides its quotient by one of its prime factors. */
  lemma ProperDivisor(d: nat) returns (q: nat)
    requires Divides(d, N) && d < N
    ensures q in FACTORS && Divides(d, N / q)
  {
    var m := N / d;
    assert N == d * m;
    FactorsArePrime();
    FactorsOfPeriod();
    hide IsPrime, Product;
    q := SomeFactor(FACTORS, N, d, m);
    Cofactor(q, N, d, m);
  }

  // Powers of the multiplier.

  function P(k: nat): (r: nat)
    ensures r < IM
  {
    Power(IA, k) % IM
  }

  lemma {:induction false} PowerSum(b: nat, i: nat, j: nat)
    ensures Power(b, i + j) == Power(b, i) * Power(b, j)
    decreases i
  {
    if i > 0 {
      PowerSum(b, i - 1, j);
      assert Power(b, i) * Power(b, j) == b * (Power(b, i - 1) * Power(b, j));
    }
  }

  lemma ModTimes(x: nat, y: nat)
    ensures x * y % IM == (x % IM) * (y % IM) % IM
  {
    var a, b, c := x / IM, y / IM, (x % IM) * (y % IM);
    assert x == IM * a + x % IM && y == IM * b + y % IM;
    var d := a * y + (x % IM) * b;
    assert x * y == IM * (a * y) + (x % IM) * y;
    assert (x % IM) * y == IM * ((x % IM) * b) + c;
    assert x * y == IM * d + c == IM * (d + c / IM) + c % IM;
    ModUnique(x * y, IM, d + c / IM, c % IM);
  }

  lemma PSum(i: nat, j: nat)
    ensures P(i + j) == P(i) * P(j) % IM
  {
    PowerSum(IA, i, j);
    ModTimes(Power(IA, i), Power(IA, j));
    hide Power;
  }

  // The powers that decide the order. Each step gives the quotients and remainders of its products.

  lemma PowerTimes(i: nat, j: nat, r: nat, t: nat, q: nat, s: nat)
    requires P(i) == r && P(j) == t && r * t == IM * q + s && s < IM
    ensures P(i + j) == s
  {
    PSum(i, j);
    ModUnique(r * t, IM, q, s);
  }

  lemma Twice(k: nat, r: nat, q: nat, s: nat)
    requires P(k) == r && r * r == IM * q + s && s < IM
    ensures P(2 * k) == s
  {
    PowerTimes(k, k, r, r, q, s);
  }

  lemma TwiceAnd(k: nat, j: nat, r: nat, t: nat, q: nat, u: nat, v: nat, s: nat)
    requires P(k) == r && P(j) == t && r * r == IM * q + u && u * t == IM * v + s && u < IM && s < IM
    ensures P(2 * k + j) == s
  {
    Twice(k, r, q, u);
    PowerTimes(2 * k, j, u, t, v, s);
  }

  lemma FirstPower()
    ensures P(1) == 16807
  {}

  lemma CommonPowers()
    ensures P(331) == 555860589 && P(49981) == 560223525 && P(1549411) == 942143378
    ensures P(17043521) == 430777829 && P(357913941) == 634005912
  {
    hide P;
    FirstPower();
    Twice(1, 16807, 0, 282475249);
    TwiceAnd(2, 1, 282475249, 16807, 37156169, 984943658, 7708, 1144108930);
    Twice(5, 1144108930, 609543753, 2007237709);
    Twice(10, 2007237709, 1876150827, 143542612);
    TwiceAnd(20, 1, 143542612, 16807, 9594709, 784558821, 6140, 530511967);
    Twice(41, 530511967, 131057085, 269220094);
    TwiceAnd(82, 1, 269220094, 16807, 33750878, 436476770, 3416, 60935238);
    TwiceAnd(165, 1, 60935238, 16807, 1729048, 925238588, 7241, 555860589);
    Twice(331, 555860589, 143880487, 1448530832);
    Twice(662, 1448530832, 977069871, 1305712687);
    TwiceAnd(1324, 331, 1305712687, 555860589, 793899233, 759417218, 196569646, 1812642440);
    Twice(2979, 1812642440, 1530010540, 901514220);
    TwiceAnd(5958, 331, 901514220, 555860589, 378455915, 289286395, 74879688, 441924519);
    TwiceAnd(12247, 331, 441924519, 555860589, 90942383, 181670560, 47024108, 1540797964);
    TwiceAnd(24825, 331, 1540797964, 555860589, 1105507075, 661242771, 171157902, 560223525);
    TwiceAnd(49981, 49981, 560223525, 560223525, 146147980, 871342565, 227310975, 1650715800);
    TwiceAnd(149943, 49981, 1650715800, 560223525, 1268863051, 64613003, 16855878, 1940668509);
    TwiceAnd(349867, 49981, 1940668509, 560223525, 1753770869, 61803838, 16123039, 1390445717);
    TwiceAnd(749715, 49981, 1390445717, 560223525, 900281263, 1930637928, 503654026, 942143378);
    Twice(1549411, 942143378, 413336858, 1451889758);
    TwiceAnd(3098822, 1549411, 1451889758, 942143378, 981606482, 1501098710, 658561573, 790745649);
    TwiceAnd(7747055, 1549411, 790745649, 942143378, 291168075, 1821461676, 799111117, 430777829);
    TwiceAnd(17043521, 17043521, 430777829, 430777829, 86412549, 2084867038, 418217152, 1568387158);
    TwiceAnd(51130563, 17043521, 1568387158, 430777829, 1145451459, 744525991, 149349351, 1074490442);
    TwiceAnd(119304647, 119304647, 1074490442, 1074490442, 537619791, 473297587, 236813786, 634005912);
  }

  lemma Without2()
    ensures P(1073741823) == 2147483646 && P(2147483646) == 1
  {
    hide P;
    CommonPowers();
    TwiceAnd(357913941, 357913941, 634005912, 634005912, 187178839, 634005911, 187178838, 2147483646);
    Twice(1073741823, 2147483646, 2147483645, 1);
  }

  lemma Without3()
    ensures P(715827882) == 634005911
  {
    hide P;
    CommonPowers();
    Twice(357913941, 634005912, 187178839, 634005911);
  }

  lemma Without7()
    ensures P(306783378) == 1600955193
  {
    hide P;
    CommonPowers();
    TwiceAnd(17043521, 17043521, 430777829, 430777829, 86412549, 2084867038, 418217152, 1568387158);
    TwiceAnd(51130563, 51130563, 1568387158, 1568387158, 1145451459, 744525991, 543755015, 394883873);
    Twice(153391689, 394883873, 72612088, 1600955193);
  }

  lemma Without11()
    ensures P(195225786) == 298192073
  {
    hide P;
    CommonPowers();
    TwiceAnd(1549411, 1549411, 942143378, 942143378, 413336858, 1451889758, 636972636, 1689239032);
    TwiceAnd(4648233, 1549411, 1689239032, 942143378, 1328777758, 1429973598, 627357585, 1461621549);
    TwiceAnd(10845877, 10845877, 1461621549, 1461621549, 994809695, 611601736, 416268723, 1343336283);
    TwiceAnd(32537631, 32537631, 1343336283, 1343336283, 840310179, 1414113276, 884583998, 1819912402);
    Twice(97612893, 1819912402, 1542307973, 298192073);
  }

  lemma Without31()
    ensures P(69273666) == 16384
  {
    hide P;
    CommonPowers();
    Twice(49981, 560223525, 146147980, 871342565);
    TwiceAnd(99962, 49981, 871342565, 560223525, 353547682, 51022971, 13310587, 755121986);
    TwiceAnd(249905, 49981, 755121986, 560223525, 265524356, 1350377864, 352279025, 1683446425);
    TwiceAnd(549791, 549791, 1683446425, 1683446425, 1319680301, 179742878, 140903287, 747263461);
    TwiceAnd(1649373, 549791, 747263461, 1683446425, 260026510, 2134216551, 1673046138, 925274889);
    TwiceAnd(3848537, 3848537, 925274889, 925274889, 398668283, 1893894220, 816012157, 1277545001);
    TwiceAnd(11545611, 11545611, 1277545001, 1277545001, 760015673, 348890570, 207556133, 2147483519);
    Twice(34636833, 2147483519, 2147483391, 16384);
  }

  lemma Without151()
    ensures P(14221746) == 1013763951
  {
    hide P;
    CommonPowers();
    TwiceAnd(331, 331, 555860589, 555860589, 143880487, 1448530832, 374941714, 2067029090);
    TwiceAnd(993, 331, 2067029090, 555860589, 1989588728, 1270697084, 328910737, 522604637);
    TwiceAnd(2317, 331, 522604637, 555860589, 127179365, 40557614, 10498044, 1390988178);
    TwiceAnd(4965, 331, 1390988178, 555860589, 900983862, 1479854970, 383049741, 473691903);
    Twice(10261, 473691903, 104486951, 370371112);
    TwiceAnd(20522, 10261, 370371112, 473691903, 63876975, 1371788719, 302589130, 382085147);
    TwiceAnd(51305, 10261, 382085147, 473691903, 67981453, 941212518, 207612639, 1615827321);
    TwiceAnd(112871, 112871, 1615827321, 1615827321, 1215794092, 600823517, 452076575, 1863638932);
    TwiceAnd(338613, 112871, 1863638932, 1615827321, 1617311532, 1791583420, 1348037942, 1906083346);
    TwiceAnd(790097, 790097, 1906083346, 1906083346, 1691819039, 1962800483, 1742160559, 1266177445);
    TwiceAnd(2370291, 2370291, 1266177445, 1266177445, 746550654, 1104572887, 651267020, 597511775);
    Twice(7110873, 597511775, 166250542, 1013763951);
  }

  lemma Without331()
    ensures P(6487866) == 759513457
  {
    hide P;
    FirstPower();
    Twice(1, 16807, 0, 282475249);
    Twice(2, 282475249, 37156169, 984943658);
    TwiceAnd(4, 1, 984943658, 16807, 451744538, 1457850878, 11409, 1458777923);
    Twice(9, 1458777923, 990942600, 16531729);
    TwiceAnd(18, 1, 16531729, 16807, 127264, 704877633, 5516, 1358580979);
    TwiceAnd(37, 1, 1358580979, 16807, 859490724, 1962408013, 15358, 1137623865);
    TwiceAnd(75, 1, 1137623865, 16807, 602653277, 1049077006, 8210, 996497972);
    TwiceAnd(151, 151, 996497972, 996497972, 462405480, 1616927224, 750303594, 1187262410);
    TwiceAnd(453, 151, 1187262410, 996497972, 656392439, 1432063067, 664520982, 108218770);
    TwiceAnd(1057, 151, 108218770, 996497972, 5453500, 111398400, 51692258, 952539874);
    TwiceAnd(2265, 151, 952539874, 996497972, 422509485, 1820044081, 844556017, 184149733);
    Twice(4681, 184149733, 15791097, 1588280530);
    TwiceAnd(9362, 4681, 1588280530, 184149733, 1174693481, 1292075693, 110797301, 1852503222);
    TwiceAnd(23405, 4681, 1852503222, 184149733, 1598041592, 1474535260, 126443465, 1070568725);
    TwiceAnd(51491, 51491, 1070568725, 1070568725, 533702501, 1687624478, 841318623, 882192469);
    TwiceAnd(154473, 51491, 882192469, 1070568725, 362407207, 1772872032, 883816439, 1184126167);
    TwiceAnd(360437, 360437, 1184126167, 1184126167, 652929199, 1872803136, 1032666862, 33453998);
    TwiceAnd(1081311, 1081311, 33453998, 33453998, 521154, 289615366, 4511695, 642181603);
    Twice(3243933, 642181603, 192037416, 759513457);
  }

  /** The period leads back to one, and none of its quotients by a prime factor does. */
  lemma PowersOfPeriod()
    ensures P(N) == 1
    ensures forall q :: q in FACTORS ==> P(N / q) != 1
  {
    hide P;
    Without2();
    Without3();
    Without7();
    Without11();
    Without31();
    Without151();
    Without331();
  }

  // The order of the multiplier.

  /** If k and k + j lead back to one so does j. */
  lemma OneDifference(k: nat, j: nat)
    requires P(k) == 1
    ensures P(k + j) == P(j)
  {
    PSum(k, j);
  }

  lemma {:induction false} OneMultiple(k: nat, m: nat)
    requires P(k) == 1
    ensures P(k * m) == 1
    decreases m
  {
    if m == 0 {
      assert P(0) == 1;
    } else {
      OneMultiple(k, m - 1);
      assert k * m == k + k * (m - 1);
      OneDifference(k, k * (m - 1));
    }
  }

  lemma {:induction false} OneGcd(a: nat, b: nat)
    requires a > 0 && b > 0 && P(a) == P(b) == 1
    ensures P(Gcd(a, b)) == 1
    decreases a + b
  {
    hide P;
    if a < b {
      OneDifference(a, b - a);
      OneGcd(a, b - a);
    } else if a > b {
      OneDifference(b, a - b);
      OneGcd(a - b, b);
    }
  }

  lemma NotOneBefore(d: nat)
    requires Divides(d, N) && d < N
    ensures P(d) != 1
  {
    hide P;
    PowersOfPeriod();
    var q := ProperDivisor(d);
    var m := N / q / d;
    assert N / q == d * m;
    if P(d) == 1 {
      OneMultiple(d, m);
    }
  }

  /** 16807 is a primitive root: a power of it is one modulo 2^31 - 1 exactly if the exponent is a multiple of the
      period. */
  lemma OrderIsPeriod(k: nat)
    ensures P(k) == 1 <==> k % N == 0
  {
    hide P;
    PowersOfPeriod();
    if k % N == 0 {
      OneMultiple(N, k / N);
      assert k == N * (k / N);
    } else if P(k) == 1 {
      GcdDivides(k, N);
      OneGcd(k, N);
      if Gcd(k, N) < N {
        NotOneBefore(Gcd(k, N));
      }
    }
  }

  lemma PowersDiffer(i: nat, j: nat)
    requires i < j < N
    ensures P(i) != P(j)
  {
    hide P;
    if P(i) == P(j) {
      PSum(i, N - i);
      PSum(j, N - i);
      OrderIsPeriod(N);
      OrderIsPeriod(j + (N - i));
      assert j + (N - i) == N * 1 + (j - i);
      ModUnique(j + (N - i), N, 1, j - i);
    }
  }

  /** The first k powers. */
  ghost function Orbit(k: nat): set<nat> {
    if k == 0 then {} else Orbit(k - 1) + {P(k - 1)}
  }

  lemma {:induction false} OrbitHas(k: nat, y: nat) returns (j: nat)
    requires y in Orbit(k)
    ensures j < k && P(j) == y
  {
    hide P;
    if y == P(k - 1) {
      j := k - 1;
    } else {
      j := OrbitHas(k - 1, y);
    }
  }

  lemma {:induction false} OrbitSize(k: nat)
    requires k <= N
    ensures |Orbit(k)| == k
  {
    hide P;
    if k > 0 {
      OrbitSize(k - 1);
      if P(k - 1) in Orbit(k - 1) {
        var j := OrbitHas(k - 1, P(k - 1));
        PowersDiffer(j, k - 1);
      }
    }
  }

  lemma PowerNonzero(k: nat)
    ensures P(k) != 0
  {
    hide P;
    OrderIsPeriod(N);
    OneMultiple(N, k);
    assert N * k == k + (N - 1) * k;
    PSum(k, (N - 1) * k);
  }

  /** The powers run through all residues but zero. */
  lemma EveryResidue(y: nat) returns (j: nat)
    requires 1 <= y < IM
    ensures j < N && P(j) == y
  {
    hide P, Orbit, Below;
    OrbitSize(N);
    var all := Orbit(N) + {0};
    forall r | r in Orbit(N) ensures r != 0 && r in Below(IM) {
      var i := OrbitHas(N, r);
      PowerNonzero(i);
    }
    SubsetOfSameSize(all, Below(IM));
    j := OrbitHas(N, y);
  }

  // The generator.

  lemma PowerTimesP(k: nat, i: nat)
    ensures Power(IA, k) * P(i) % IM == P(k + i)
  {
    hide Power;
    PSum(k, i);
    ModTimes(Power(IA, k), P(i));
    ModUnique(P(i), IM, 0, P(i));
  }

  /** The masked seed after k calls is the power whose exponent grew by k. */
  lemma IterateIsPower(x: nat, k: nat, i: nat)
    requires Xor(x, MASK) == P(i)
    ensures Xor(Iterate(x, k), MASK) == P(k + i)
  {
    hide *;
    PowerNonzero(i);
    Ran0IsParkMiller(x, k);
    PowerTimesP(k, i);
  }

  /** The exponent comes back exactly after multiples of the period. */
  lemma ExponentReturns(k: nat, i: nat)
    requires i < N
    ensures P(k + i) == P(i) <==> k % N == 0
  {
    hide P;
    OrderIsPeriod(k);
    OrderIsPeriod(N);
    if k % N == 0 {
      OneDifference(k, i);
    } else {
      PSum(i, N - i);
      PSum(k + i, N - i);
      OneDifference(N, k);
      assert k + i + (N - i) == N + k && i + (N - i) == N;
    }
  }

  /** From every seed that is masked to a residue, ran0 comes back to it after 2^31 - 2 calls and their multiples and
      never in between. */
  lemma PeriodIsFull(x: nat, k: nat)
    requires 1 <= Xor(x, MASK) < IM
    ensures Iterate(x, k) == x <==> k % N == 0
  {
    hide P, Iterate, Xor;
    var i := EveryResidue(Xor(x, MASK));
    IterateIsPower(x, k, i);
    XorTwice(x, MASK);
    XorTwice(Iterate(x, k), MASK);
    ExponentReturns(k, i);
  }

  lemma ExponentReached(i: nat, j: nat) returns (k: nat)
    requires i < N && j < N
    ensures k < N && P(k + i) == P(j)
  {
    hide P;
    OrderIsPeriod(N);
    OneDifference(N, j);
    k := if i <= j then j - i else N + j - i;
  }

  /** So the calls run through all such seeds. */
  lemma EverySeedIsReached(x: nat, z: int) returns (k: nat)
    requires 1 <= Xor(x, MASK) < IM && 1 <= Xor(z, MASK) < IM
    ensures k < N && Iterate(x, k) == z
  {
    hide P, Iterate, Xor;
    var i := EveryResidue(Xor(x, MASK));
    var j := EveryResidue(Xor(z, MASK));
    k := ExponentReached(i, j);
    IterateIsPower(x, k, i);
    XorTwice(z, MASK);
    XorTwice(Iterate(x, k), MASK);
  }

  // Every seed.

  function Abs(y: int): nat { if y >= 0 then y else -y }

  /** Seeds beyond the bound of the method come nearer to zero. */
  lemma UpdateShrinks(y: int)
    requires Abs(y) >= LIMIT
    ensures Abs(Update(y)) < Abs(y)
  {
    var n := Abs(y);
    assert n == IQ * (n / IQ) + n % IQ;
  }

  /** A multiple of the modulus stays one, and nothing else becomes one. */
  lemma UpdateKeepsMultiples(y: int)
    ensures Update(y) % IM == 0 <==> y % IM == 0
  {
    IntermediateIsCongruent(y);
    var t := Intermediate(y);
    var d := (IA * y - t) / IM;
    assert t == IA * y - IM * d;
    hide Intermediate;
    if y % IM == 0 {
      var m := y / IM;
      assert y == IM * m;
      ModUnique(t, IM, IA * m - d, 0);
      ModUnique(t + IM, IM, IA * m - d + 1, 0);
    }
    if t % IM == 0 {
      TakeOutMultiplier(y, t / IM + d);
    }
    if (t + IM) % IM == 0 {
      TakeOutMultiplier(y, (t + IM) / IM - 1 + d);
    }
  }

  lemma TakeOutMultiplier(y: int, m: int)
    requires IA * y == IM * m
    ensures y % IM == 0
  {
    var c := IA * INVERSE / IM;
    assert IA * INVERSE == IM * c + 1;
    assert INVERSE * (IA * y) == (IM * c + 1) * y == IM * (c * y) + y;
    assert INVERSE * (IM * m) == IM * (INVERSE * m);
    assert y == IM * (INVERSE * m - c * y);
    ModUnique(y, IM, INVERSE * m - c * y, 0);
  }

  lemma MaskedUpdate(x: int)
    ensures Xor(Ran0(x), MASK) == Update(Xor(x, MASK))
  {
    XorTwice(Update(Xor(x, MASK)), MASK);
  }

  lemma {:induction false} IterateShift(x: int, k: nat)
    ensures Iterate(x, k + 1) == Iterate(Ran0(x), k)
  {
    hide Ran0;
    if k > 0 {
      IterateShift(x, k - 1);
    }
  }

  /** From every integer seed the calls reach one that is masked to a residue, and to zero exactly if the seed is masked to
      a multiple of the modulus. */
  lemma {:induction false} ResidueIsReached(x: int) returns (k: nat)
    ensures var y := Xor(Iterate(x, k), MASK);
            0 <= y < IM && (y == 0 <==> Xor(x, MASK) % IM == 0)
    decreases Abs(Xor(x, MASK))
  {
    var y := Xor(x, MASK);
    MaskedUpdate(x);
    UpdateKeepsMultiples(y);
    hide Xor, Ran0, Update;
    if 0 <= y < IM {
      k := 0;
      ModUnique(y, IM, 0, y);
    } else if Abs(y) < LIMIT {
      k := 1;
      assert Iterate(x, 1) == Ran0(x);
      SchrageIsExact(y);
      ModUnique(Update(y), IM, 0, Update(y));
    } else {
      UpdateShrinks(y);
      k := ResidueIsReached(Ran0(x));
      IterateShift(x, k);
      k := k + 1;
    }
  }

  lemma {:induction false} ZeroStays(x: int, k: nat)
    requires Xor(x, MASK) == 0
    ensures Iterate(x, k) == x
  {
    if k > 0 {
      ZeroStays(x, k - 1);
      MaskedUpdate(x);
      assert Update(0) == 0;
      XorTwice(x, MASK);
      XorTwice(Ran0(x), MASK);
      hide Xor, Ran0, Update;
    }
  }

  /** What becomes of every integer seed: the calls come to a cycle of all the seeds that are masked to residues but zero,
      or, exactly if the seed is masked to a multiple of the modulus, to MASK for ever. */
  lemma FateOfSeed(x: int) returns (k: nat)
    ensures var z := Iterate(x, k);
            if Xor(x, MASK) % IM == 0 then z == MASK && forall j: nat :: Iterate(z, j) == z
            else z >= 0 && 1 <= Xor(z, MASK) < IM && forall j: nat :: Iterate(z, j) == z <==> j % N == 0
  {
    k := ResidueIsReached(x);
    var z := Iterate(x, k);
    XorTwice(z, MASK);
    ZeroMasked();
    assert Xor(z, MASK) >= 0 ==> z >= 0;
    hide Xor, Iterate;
    if Xor(x, MASK) % IM == 0 {
      forall j: nat ensures Iterate(z, j) == z {
        ZeroStays(z, j);
      }
    } else {
      forall j: nat ensures Iterate(z, j) == z <==> j % N == 0 {
        PeriodIsFull(z, j);
      }
    }
  }

  lemma {:induction false} XorWithZero(a: nat)
    ensures XorNat(0, a) == a
  {
    if a > 0 {
      XorWithZero(a / 2);
    }
  }

  lemma ZeroMasked()
    ensures Xor(0, MASK) == MASK
  {
    XorWithZero(MASK);
  }

  /** A seed other than MASK, every call on which is exact, and which nevertheless is at MASK after one call and stays. */
  lemma ModulusFails(j: nat)
    requires j > 0
    ensures var x := 2024023771;
            Xor(x, MASK) == IM && Safe(IM) && Iterate(x, j) == MASK
  {
    var x := 2024023771;
    ModulusMasked();
    MaskedUpdate(x);
    ZeroMasked();
    XorTwice(Ran0(x), MASK);
    assert Safe(IM) && Update(IM) == 0;
    IterateShift(x, j - 1);
    hide Xor, Ran0, Update, Iterate;
    ZeroStays(Ran0(x), j - 1);
  }

  lemma {:induction false} XorComplement(a: nat, b: nat, k: nat)
    requires a + b == Pow2(k) - 1
    ensures XorNat(a, b) == Pow2(k) - 1
    decreases k
  {
    if k > 0 {
      XorComplement(a / 2, b / 2, k - 1);
    }
  }

  lemma ModulusMasked()
    ensures Xor(2024023771, MASK) == IM
  {
    Pow2Of31();
    XorComplement(2024023771, MASK, 31);
    hide XorNat, Pow2;
  }
}
