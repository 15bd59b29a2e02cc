/** Cutting bytes into blocks, and numbers into bytes. */
module Encoding {
  import opened Words
  import opened Arithmetic

  const TWO_TO_64: nat := 0x1_0000_0000_0000_0000

  // Blocks

  /** The whole blocks at the front of data. */
  function Blocks(n: nat, data: seq<byte>): (bs: seq<seq<byte>>)
    requires n > 0
    ensures forall b :: b in bs ==> |b| == n
  {
    if |data| < n then [] else [data[..n]] + Blocks(n, data[n..])
  }

  /** The bytes left over after the whole blocks. */
  function Tail(n: nat, data: seq<byte>): (r: seq<byte>)
    requires n > 0
    ensures |r| < n && |r| <= |data|
  {
    if |data| < n then data else Tail(n, data[n..])
  }

  lemma CutOnce(n: nat, x: seq<byte>)
    requires 0 < n <= |x|
    ensures Blocks(n, x) == [x[..n]] + Blocks(n, x[n..]) && Tail(n, x) == Tail(n, x[n..])
  {}

  lemma CutNone(n: nat, x: seq<byte>)
    requires |x| < n
    ensures Blocks(n, x) == [] && Tail(n, x) == x
  {}

  /** Cutting may stop anywhere in the middle and go on later with what was left over. */
  lemma {:induction false} CutInTwo(n: nat, x: seq<byte>, y: seq<byte>)
    requires n > 0
    ensures Blocks(n, x + y) == Blocks(n, x) + Blocks(n, Tail(n, x) + y)
    ensures Tail(n, x + y) == Tail(n, Tail(n, x) + y)
    decreases |x|
  {
    hide Blocks, Tail;
    if |x| >= n {
      var rest := x[n..];
      assert (x + y)[..n] == x[..n] && (x + y)[n..] == rest + y;
      CutInTwo(n, rest, y);
      CutOnce(n, x);
      CutOnce(n, x + y);
    } else {
      CutNone(n, x);
    }
  }

  lemma {:induction false} TailIsRemainder(n: nat, data: seq<byte>)
    requires n > 0
    ensures |Tail(n, data)| == |data| % n
    decreases |data|
  {
    var m := |data|;
    if m >= n {
      TailIsRemainder(n, data[n..]);
      hide Tail;
      assert m - n == n * ((m - n) / n) + (m - n) % n;
      MulNext(n, (m - n) / n);
      ModUnique(m, n, (m - n) / n + 1, (m - n) % n);
    } else {
      ModUnique(m, n, 0, m);
    }
  }

  /** When nothing is left over the blocks are the data. */
  lemma {:induction false} BlocksInjective(n: nat, x: seq<byte>, y: seq<byte>)
    requires n > 0 && Tail(n, x) == Tail(n, y) == [] && Blocks(n, x) == Blocks(n, y)
    ensures x == y
    decreases |x|
  {
    if |x| >= n {
      assert Blocks(n, x)[0] == x[..n] && Blocks(n, y)[0] == y[..n];
      assert Blocks(n, x)[1..] == Blocks(n, x[n..]) && Blocks(n, y)[1..] == Blocks(n, y[n..]);
      BlocksInjective(n, x[n..], y[n..]);
      assert x == x[..n] + x[n..] && y == y[..n] + y[n..];
    }
  }

  lemma {:induction false} LastBlock(n: nat, data: seq<byte>)
    requires n > 0 && Tail(n, data) == [] && data != []
    ensures |data| >= n && Blocks(n, data) != []
    ensures var bs := Blocks(n, data); bs[|bs| - 1] == data[|data| - n..]
    decreases |data|
  {
    if |data| > n {
      LastBlock(n, data[n..]);
      var bs := Blocks(n, data[n..]);
      assert Blocks(n, data)[|bs|] == bs[|bs| - 1];
    }
  }

  lemma {:induction false} SameLengthSameCount(n: nat, x: seq<byte>, y: seq<byte>)
    requires n > 0 && |x| == |y|
    ensures |Blocks(n, x)| == |Blocks(n, y)| && |Tail(n, x)| == |Tail(n, y)|
    decreases |x|
  {
    if |x| >= n {
      SameLengthSameCount(n, x[n..], y[n..]);
    }
  }

  // Numbers as bytes

  /** The low byte of x. */
  function LowByte(x: nat): byte {
    (x % 256) as byte
  }

  /** The k low bytes of x, most significant first. */
  function BigEndian(k: nat, x: nat): (b: seq<byte>)
    ensures |b| == k
  {
    if k == 0 then [] else BigEndian(k - 1, x / 256) + [LowByte(x)]
  }

  /** The k low bytes of x, least significant first. */
  function LittleEndian(k: nat, x: nat): (b: seq<byte>)
    ensures |b| == k
  {
    if k == 0 then [] else [LowByte(x)] + LittleEndian(k - 1, x / 256)
  }

  function Pow256(k: nat): nat {
    if k == 0 then 1 else 256 * Pow256(k - 1)
  }

  lemma LowByteInjective(x: nat, y: nat)
    requires LowByte(x) == LowByte(y)
    ensures x % 256 == y % 256
  {
    ByteValue(x % 256);
    ByteValue(y % 256);
  }

  lemma {:induction false} BigEndianInjective(k: nat, x: nat, y: nat)
    requires BigEndian(k, x) == BigEndian(k, y) && x < Pow256(k) && y < Pow256(k)
    ensures x == y
    decreases k
  {
    if k > 0 {
      var b, c := BigEndian(k, x), BigEndian(k, y);
      assert b[k - 1] == c[k - 1] && b[..k - 1] == c[..k - 1];
      LowByteInjective(x, y);
      BigEndianInjective(k - 1, x / 256, y / 256);
    }
  }

  lemma {:induction false} LittleEndianInjective(k: nat, x: nat, y: nat)
    requires LittleEndian(k, x) == LittleEndian(k, y) && x < Pow256(k) && y < Pow256(k)
    ensures x == y
    decreases k
  {
    if k > 0 {
      var b, c := LittleEndian(k, x), LittleEndian(k, y);
      assert b[0] == c[0] && b[1..] == c[1..];
      LowByteInjective(x, y);
      LittleEndianInjective(k - 1, x / 256, y / 256);
    }
  }

  /** Division by 256, k times. */
  function Shifted(x: nat, k: nat): nat {
    if k == 0 then x else Shifted(x / 256, k - 1)
  }

  /** It is division by 256 to the power k, which is what shifting an unsigned number right by 8 * k bits means. */
  lemma {:induction false} ShiftedIsQuotient(x: nat, k: nat)
    ensures Pow256(k) > 0 && Shifted(x, k) == x / Pow256(k)
    decreases k
  {
    if k > 0 {
      ShiftedIsQuotient(x / 256, k - 1);
      QuotientOfQuotient(x, Pow256(k - 1));
    }
  }

  lemma QuotientOfQuotient(x: nat, p: nat)
    requires p > 0
    ensures x / 256 / p == x / (256 * p)
  {
    var y := x / 256;
    var q, r := y / p, y % p;
    assert y == p * q + r && x == 256 * y + x % 256;
    assert 256 * (p * q) == 256 * p * q;
    QuotientUnique(x, 256 * p, q, 256 * r + x % 256);
  }

  lemma Shifted8(x: nat)
    ensures Shifted(x, 8) == x / TWO_TO_64
  {
    var x1 := x / 256;
    var x2 := x1 / 256;
    var x3 := x2 / 256;
    var x4 := x3 / 256;
    var x5 := x4 / 256;
    var x6 := x5 / 256;
    var x7 := x6 / 256;
    assert Shifted(x, 8) == Shifted(x1, 7) == Shifted(x2, 6) == Shifted(x3, 5) == Shifted(x4, 4);
    assert Shifted(x4, 4) == Shifted(x5, 3) == Shifted(x6, 2) == Shifted(x7, 1) == x7 / 256;
    assert x4 == x / 0x1_0000_0000 && x7 / 256 == x4 / 0x1_0000_0000;
  }

  /** A wide number is its high bytes and then its low bytes. */
  lemma {:induction false} BigEndianSplit(j: nat, k: nat, x: nat)
    ensures BigEndian(j + k, x) == BigEndian(j, Shifted(x, k)) + BigEndian(k, x)
    decreases k
  {
    if k > 0 {
      BigEndianSplit(j, k - 1, x / 256);
    }
  }

  /** x / 256 is what remains of x modulo 256 * p, divided by 256 and taken modulo p. */
  lemma ModStep(x: nat, p: nat)
    requires p > 0
    ensures (x % (256 * p)) % 256 == x % 256
    ensures (x % (256 * p)) / 256 == (x / 256) % p
  {
    var q, r := x / (256 * p), x % (256 * p);
    assert x == 256 * (p * q) + r;
    assert x / 256 == p * q + r / 256;
    ModUnique(x / 256, p, q, r / 256);
  }

  /** Only the low bytes count. */
  lemma {:induction false} LowBytes(k: nat, x: nat)
    ensures Pow256(k) > 0
    ensures BigEndian(k, x % Pow256(k)) == BigEndian(k, x)
    ensures LittleEndian(k, x % Pow256(k)) == LittleEndian(k, x)
    decreases k
  {
    if k > 0 {
      LowBytes(k - 1, x / 256);
      ModStep(x, Pow256(k - 1));
    }
  }
}
