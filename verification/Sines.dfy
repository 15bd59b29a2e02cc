/** The table T of MD5: entry i, counted from 1, is the integer part of 2^32 times the magnitude of the sine of i radians
    (section 3.4 of RFC 1321). The sines are computed in units of 2^-64, by turning one radian at a time. */
module Sines {
  import opened Encoding
  import Md5
  import opened Constants

  // The sine and the cosine of one radian.
  const SIN1: int := 0xd76aa47848677020
  const COS1: int := 0x8a51407da8345c91

  /** The first k + 1 terms of the Taylor series of the sine at 1, times the factorial of 2 * k + 1. */
  function SineSeries(k: nat): int {
    if k == 0 then 1 else (2 * k + 1) * (2 * k) * SineSeries(k - 1) + (if k % 2 == 0 then 1 else -1)
  }

  /** The first k + 1 terms of that of the cosine, times the factorial of 2 * k. */
  function CosineSeries(k: nat): int {
    if k == 0 then 1 else (2 * k) * (2 * k - 1) * CosineSeries(k - 1) + (if k % 2 == 0 then 1 else -1)
  }

  function Factorial(k: nat): nat {
    if k == 0 then 1 else k * Factorial(k - 1)
  }

  /** Thirteen terms give the two constants, rounded down. */
  lemma OneRadian()
    ensures SIN1 * Factorial(25) <= TWO_TO_64 * SineSeries(12) < (SIN1 + 1) * Factorial(25)
    ensures COS1 * Factorial(24) <= TWO_TO_64 * CosineSeries(12) < (COS1 + 1) * Factorial(24)
  {
    assert SineSeries(3) == 4241 && CosineSeries(3) == 389;
    assert SineSeries(6) == 5239857325 && CosineSeries(6) == 258805669;
    assert SineSeries(9) == 102360822438075317 && CosineSeries(9) == 3459217276234385;
    assert SineSeries(12) == 13052233190723859821607001 && CosineSeries(12) == 335229702128671164345673;
    assert Factorial(5) == 120;
    assert Factorial(10) == 3628800;
    assert Factorial(15) == 1307674368000;
    assert Factorial(20) == 2432902008176640000;
    assert Factorial(24) == 620448401733239439360000;
  }

  datatype Angle = Angle(cos: int, sin: int)

  /** An angle one radian further, rounded down. */
  function Turned(a: Angle): Angle {
    Angle((a.cos * COS1 - a.sin * SIN1) / TWO_TO_64, (a.sin * COS1 + a.cos * SIN1) / TWO_TO_64)
  }

  function Radians(i: nat): Angle {
    if i == 0 then Angle(TWO_TO_64, 0) else Turned(Radians(i - 1))
  }

  /** t is the integer part of 2^32 times the magnitude of the sine, and no rounding error under 2^15 units changes that. */
  predicate IsEntry(t: nat, a: Angle) {
    var magnitude := if a.sin < 0 then -a.sin else a.sin;
    t * TWO_TO_32 + 0x8000 <= magnitude <= (t + 1) * TWO_TO_32 - 0x8000
  }

  lemma Turn(i: nat, c: int, s: int, c': int, s': int)
    requires Radians(i) == Angle(c, s)
    requires 0 <= c * COS1 - s * SIN1 - TWO_TO_64 * c' < TWO_TO_64
    requires 0 <= s * COS1 + c * SIN1 - TWO_TO_64 * s' < TWO_TO_64
    ensures Radians(i + 1) == Angle(c', s')
  {}

  lemma Md5SinesFirst()
    ensures Radians(16) == Angle(-17665699343287164580, -5310878800492617617)
    ensures IsEntry(Md5.T(0) as nat, Radians(1))
    ensures IsEntry(Md5.T(1) as nat, Radians(2))
    ensures IsEntry(Md5.T(2) as nat, Radians(3))
    ensures IsEntry(Md5.T(3) as nat, Radians(4))
    ensures IsEntry(Md5.T(4) as nat, Radians(5))
    ensures IsEntry(Md5.T(5) as nat, Radians(6))
    ensures IsEntry(Md5.T(6) as nat, Radians(7))
    ensures IsEntry(Md5.T(7) as nat, Radians(8))
    ensures IsEntry(Md5.T(8) as nat, Radians(9))
    ensures IsEntry(Md5.T(9) as nat, Radians(10))
    ensures IsEntry(Md5.T(10) as nat, Radians(11))
    ensures IsEntry(Md5.T(11) as nat, Radians(12))
    ensures IsEntry(Md5.T(12) as nat, Radians(13))
    ensures IsEntry(Md5.T(13) as nat, Radians(14))
    ensures IsEntry(Md5.T(14) as nat, Radians(15))
    ensures IsEntry(Md5.T(15) as nat, Radians(16))
  {
    assert Radians(0) == Angle(18446744073709551616, 0);
    hide Radians;
    Turn(0, 18446744073709551616, 0, 9966818358784711825, 15522399902203605024);
    Turn(1, 9966818358784711825, 15522399902203605024, -7676554190868976273, 16773576919535988475);
    Turn(2, -7676554190868976273, 16773576919535988475, -18262138219681190661, 2603204672360199836);
    Turn(3, -18262138219681190661, 2603204672360199836, -12057596589483886111, -13960541945290126213);
    Turn(4, -12057596589483886111, -13960541945290126213, 5232643738629268816, -17689030680778479886);
    Turn(5, 5232643738629268816, -17689030680778479886, 17712015545019640786, -5154306185503637734);
    Turn(6, 17712015545019640786, -5154306185503637734, 13907041942463625896, 12119263646422417946);
    Turn(7, 13907041942463625896, 12119263646422417946, -2684001886383580960, 18250438372675540806);
    Turn(8, -2684001886383580960, 18250438372675540806, -16807386758798596987, 7602244225299530305);
    Turn(9, -16807386758798596987, 7602244225299530305, -15478137756409460986, -10035418203271369420);
    Turn(10, -15478137756409460986, -10035418203271369420, 81639718133104122, -18446563416456779426);
    Turn(11, 81639718133104122, -18446563416456779426, 15566358012324943255, -9898023295237564996);
    Turn(12, 15566358012324943255, -9898023295237564996, 16739438537923213668, 7750713796549941351);
    Turn(13, 16739438537923213668, 7750713796549941351, 2522356469630884145, 18273480368037438683);
    Turn(14, 2522356469630884145, 18273480368037438683, -14013768504397239596, 11995693361623679707);
    Turn(15, -14013768504397239596, 11995693361623679707, -17665699343287164580, -5310878800492617617);
  }

  lemma Md5SinesSecond()
    ensures Radians(32) == Angle(15388704831573535143, 10172026864280481127)
    ensures IsEntry(Md5.T(16) as nat, Radians(17))
    ensures IsEntry(Md5.T(17) as nat, Radians(18))
    ensures IsEntry(Md5.T(18) as nat, Radians(19))
    ensures IsEntry(Md5.T(19) as nat, Radians(20))
    ensures IsEntry(Md5.T(20) as nat, Radians(21))
    ensures IsEntry(Md5.T(21) as nat, Radians(22))
    ensures IsEntry(Md5.T(22) as nat, Radians(23))
    ensures IsEntry(Md5.T(23) as nat, Radians(24))
    ensures IsEntry(Md5.T(24) as nat, Radians(25))
    ensures IsEntry(Md5.T(25) as nat, Radians(26))
    ensures IsEntry(Md5.T(26) as nat, Radians(27))
    ensures IsEntry(Md5.T(27) as nat, Radians(28))
    ensures IsEntry(Md5.T(28) as nat, Radians(29))
    ensures IsEntry(Md5.T(29) as nat, Radians(30))
    ensures IsEntry(Md5.T(30) as nat, Radians(31))
    ensures IsEntry(Md5.T(31) as nat, Radians(32))
  {
    hide Radians;
    assert Radians(16) == Angle(-17665699343287164580, -5310878800492617617) by {
      Md5SinesFirst();
    }
    Turn(16, -17665699343287164580, -5310878800492617617, -5075867675505433474, -17734653485808442215);
    Turn(17, -5075867675505433474, -17734653485808442215, 12180693324572884428, -13853269543816868748);
    Turn(18, 12180693324572884428, -13853269543816868748, 18238381056184205987, 2764746529134189835);
    Turn(19, 18238381056184205987, 2764746529134189835, 7527785355343363523, 16840867393481146131);
    Turn(20, 7527785355343363523, 16840867393481146131, -10103821485039340328, 15433572441900672340);
    Turn(21, -10103821485039340328, 15433572441900672340, -18446021448236978168, -163277837197328002);
    Turn(22, -18446021448236978168, -163277837197328002, -9829034360111862347, -15610011225770430408);
    Turn(23, -9829034360111862347, -15610011225770430408, 7824721589785749375, -16704972282625291366);
    Turn(24, 7824721589785749375, -16704972282625291366, 18284464595586775212, -2441458861761182179);
    Turn(25, 18284464595586775212, -2441458861761182179, 11933555175334045427, 14066720577241750370);
    Turn(26, 11933555175334045427, 14066720577241750370, -5389009838711460998, 17642021989534236365);
    Turn(27, -5389009838711460998, 17642021989534236365, -17756944059737833596, 4997329745001797167);
    Turn(28, -17756944059737833596, 4997329745001797167, -13799225802584374173, -12241884420718409022);
    Turn(29, -13799225802584374173, -12241884420718409022, 2845437019074896973, -18225966506372621630);
    Turn(30, 2845437019074896973, -18225966506372621630, 16874018167801839555, -7453179039418811114);
    Turn(31, 16874018167801839555, -7453179039418811114, 15388704831573535143, 10172026864280481127);
  }

  lemma Md5SinesThird()
    ensures Radians(48) == Angle(-11808578800422175518, -14171797120872089165)
    ensures IsEntry(Md5.T(32) as nat, Radians(33))
    ensures IsEntry(Md5.T(33) as nat, Radians(34))
    ensures IsEntry(Md5.T(34) as nat, Radians(35))
    ensures IsEntry(Md5.T(35) as nat, Radians(36))
    ensures IsEntry(Md5.T(36) as nat, Radians(37))
    ensures IsEntry(Md5.T(37) as nat, Radians(38))
    ensures IsEntry(Md5.T(38) as nat, Radians(39))
    ensures IsEntry(Md5.T(39) as nat, Radians(40))
    ensures IsEntry(Md5.T(40) as nat, Radians(41))
    ensures IsEntry(Md5.T(41) as nat, Radians(42))
    ensures IsEntry(Md5.T(42) as nat, Radians(43))
    ensures IsEntry(Md5.T(43) as nat, Radians(44))
    ensures IsEntry(Md5.T(44) as nat, Radians(45))
    ensures IsEntry(Md5.T(45) as nat, Radians(46))
    ensures IsEntry(Md5.T(46) as nat, Radians(47))
    ensures IsEntry(Md5.T(47) as nat, Radians(48))
  {
    hide Radians;
    assert Radians(32) == Angle(15388704831573535143, 10172026864280481127) by {
      Md5SinesSecond();
    }
    Turn(32, 15388704831573535143, 10172026864280481127, -244912758155112197, 18445118179665624406);
    Turn(33, -244912758155112197, 18445118179665624406, -15653358687509001462, 9759852904686880232);
    Turn(34, -15653358687509001462, 9759852904686880232, -16670178828729268973, -7898576120993259135);
    Turn(35, -16670178828729268973, -7898576120993259135, -2360513433284335707, -18295090687182249114);
    Turn(36, -2360513433284335707, -18295090687182249114, 14119397126656777435, -11871183247709336886);
    Turn(37, 14119397126656777435, -11871183247709336886, 17617999083285622153, 5467035322941076393);
    Turn(38, 17617999083285622153, 5467035322941076393, 4918693932307209301, 17778886830204603793);
    Turn(39, 4918693932307209301, 17778886830204603793, -12302835736315196723, 13744911777315421284);
    Turn(40, -12302835736315196723, 13744911777315421284, -18213194966403315970, -2926071775729258477);
    Turn(41, -18213194966403315970, -2926071775729258477, -7378426738832217495, -16906838432439822354);
    Turn(42, -7378426738832217495, -16906838432439822354, 10240033005062945119, -15343535804245382983);
    Turn(43, 10240033005062945119, -15343535804245382983, 18443853628434948048, 326542882031538255);
    Turn(44, 18443853628434948048, 326542882031538255, 9690480284012770580, 15696399548498319075);
    Turn(45, 9690480284012770580, 15696399548498319075, -7972275943591257228, 16635058857730999649);
    Turn(46, -7972275943591257228, 16635058857730999649, -18305358434691681863, 2279521769670243877);
    Turn(47, -18305358434691681863, 2279521769670243877, -11808578800422175518, -14171797120872089165);
  }

  lemma Md5SinesFourth()
    ensures Radians(64) == Angle(7228490043166539693, 16971484867765126049)
    ensures IsEntry(Md5.T(48) as nat, Radians(49))
    ensures IsEntry(Md5.T(49) as nat, Radians(50))
    ensures IsEntry(Md5.T(50) as nat, Radians(51))
    ensures IsEntry(Md5.T(51) as nat, Radians(52))
    ensures IsEntry(Md5.T(52) as nat, Radians(53))
    ensures IsEntry(Md5.T(53) as nat, Radians(54))
    ensures IsEntry(Md5.T(54) as nat, Radians(55))
    ensures IsEntry(Md5.T(55) as nat, Radians(56))
    ensures IsEntry(Md5.T(56) as nat, Radians(57))
    ensures IsEntry(Md5.T(57) as nat, Radians(58))
    ensures IsEntry(Md5.T(58) as nat, Radians(59))
    ensures IsEntry(Md5.T(59) as nat, Radians(60))
    ensures IsEntry(Md5.T(60) as nat, Radians(61))
    ensures IsEntry(Md5.T(61) as nat, Radians(62))
    ensures IsEntry(Md5.T(62) as nat, Radians(63))
    ensures IsEntry(Md5.T(63) as nat, Radians(64))
  {
    hide Radians;
    assert Radians(48) == Angle(-11808578800422175518, -14171797120872089165) by {
      Md5SinesThird();
    }
    Turn(48, -11808578800422175518, -14171797120872089165, 5544953724904216526, -17593631095075550543);
    Turn(49, 5544953724904216526, -17593631095075550543, 17800481367417932822, -4839961777653358905);
    Turn(50, 17800481367417932822, -4839961777653358905, 13690328531853315206, 12363546077516009826);
    Turn(51, 13690328531853315206, 12363546077516009826, -3006649219712472680, 18200066686431147265);
    Turn(52, -3006649219712472680, 18200066686431147265, -16939327544547899264, 7303529917749313855);
    Turn(53, -16939327544547899264, 7303529917749313855, -15298066244637373684, -10307838575357349090);
    Turn(54, -15298066244637373684, -10307838575357349090, 408166609945647669, -18442227819313585814);
    Turn(55, 408166609945647669, -18442227819313585814, 15739132965701403694, -9620917856884019671);
    Turn(56, 15739132965701403694, -9620917856884019671, 16599613057521793935, 8045819614028792101);
    Turn(57, 16599613057521793935, 8045819614028792101, 2198485457294408786, 18315267637001744218);
    Turn(58, 2198485457294408786, 18315267637001744218, -14223919533534312585, 11745743059699521819);
    Turn(59, -14223919533534312585, 11745743059699521819, -17568918502197335525, -5622763518421043604);
    Turn(60, -17568918502197335525, -5622763518421043604, -4761134823158975201, -17821727248407810121);
    Turn(61, -4761134823158975201, -17821727248407810121, 12424014255193551679, -13635477135314549687);
    Turn(62, 12424014255193551679, -13635477135314549687, 18186581923598404035, 3087167772762315394);
    Turn(63, 18186581923598404035, 3087167772762315394, 7228490043166539693, 16971484867765126049);
  }
}
