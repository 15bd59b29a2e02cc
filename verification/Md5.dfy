/** MD5 compression: the table-driven rounds, the unrolled rounds, and the definition in
    section 3.4 of RFC 1321. */
module Md5 {
  import opened Words
  import opened Registers
  import opened Folds
  import opened Tables

  type State = Regs4<bv32>

  // The auxiliary functions as the code writes them.

  function F(x: bv32, y: bv32, z: bv32): bv32 { z ^ (x & (y ^ z)) }

  function G(x: bv32, y: bv32, z: bv32): bv32 { y ^ (z & (y ^ x)) }

  function H(x: bv32, y: bv32, z: bv32): bv32 { x ^ y ^ z }

  function I(x: bv32, y: bv32, z: bv32): bv32 { y ^ (x | !z) }

  // The auxiliary functions of section 3.4 of RFC 1321.

  function StdF(x: bv32, y: bv32, z: bv32): bv32 { (x & y) | (!x & z) }

  function StdG(x: bv32, y: bv32, z: bv32): bv32 { (x & z) | (y & !z) }

  function StdH(x: bv32, y: bv32, z: bv32): bv32 { x ^ y ^ z }

  function StdI(x: bv32, y: bv32, z: bv32): bv32 { y ^ (x | !z) }

  lemma FIsStandard(x: bv32, y: bv32, z: bv32)
    ensures F(x, y, z) == StdF(x, y, z)
  {
    assert z ^ (x & (y ^ z)) == (x & y) | (!x & z);
  }

  lemma GIsStandard(x: bv32, y: bv32, z: bv32)
    ensures G(x, y, z) == StdG(x, y, z)
  {
    assert y ^ (z & (y ^ x)) == (x & z) | (y & !z);
  }

  /** The function of operation i, counted from 0. */
  function Mix(i: nat, x: bv32, y: bv32, z: bv32): bv32 {
    if i < 16 then StdF(x, y, z) else if i < 32 then StdG(x, y, z) else if i < 48 then StdH(x, y, z) else StdI(x, y, z)
  }

  /** A place in the block. */
  type Index = k: nat | k < 16

  /** The block word of operation i, counted from 0. */
  function WordIndex(i: nat): Index {
    if i < 16 then
      Pick16(i, 0, 1, 2, 3, 4, 5, 6, 7, 8, 9, 10, 11, 12, 13, 14, 15)
    else if i < 32 then
      Pick16(i - 16, 1, 6, 11, 0, 5, 10, 15, 4, 9, 14, 3, 8, 13, 2, 7, 12)
    else if i < 48 then
      Pick16(i - 32, 5, 8, 11, 14, 1, 4, 7, 10, 13, 0, 3, 6, 9, 12, 15, 2)
    else
      Pick16(i - 48, 0, 7, 14, 5, 12, 3, 10, 1, 8, 15, 6, 13, 4, 11, 2, 9)
  }

  /** The rotation of operation i. */
  function Rotation(i: nat): Shift {
    if i < 16 then
      Pick16(i, 7, 12, 17, 22, 7, 12, 17, 22, 7, 12, 17, 22, 7, 12, 17, 22)
    else if i < 32 then
      Pick16(i - 16, 5, 9, 14, 20, 5, 9, 14, 20, 5, 9, 14, 20, 5, 9, 14, 20)
    else if i < 48 then
      Pick16(i - 32, 4, 11, 16, 23, 4, 11, 16, 23, 4, 11, 16, 23, 4, 11, 16, 23)
    else
      Pick16(i - 48, 6, 10, 15, 21, 6, 10, 15, 21, 6, 10, 15, 21, 6, 10, 15, 21)
  }

  /** Entry i of the table T of RFC 1321, counted from 0. */
  function T(i: nat): bv32 {
    if i < 16 then
      Pick16(i,
             0xd76aa478, 0xe8c7b756, 0x242070db, 0xc1bdceee, 0xf57c0faf, 0x4787c62a, 0xa8304613, 0xfd469501,
             0x698098d8, 0x8b44f7af, 0xffff5bb1, 0x895cd7be, 0x6b901122, 0xfd987193, 0xa679438e, 0x49b40821)
    else if i < 32 then
      Pick16(i - 16,
             0xf61e2562, 0xc040b340, 0x265e5a51, 0xe9b6c7aa, 0xd62f105d, 0x02441453, 0xd8a1e681, 0xe7d3fbc8,
             0x21e1cde6, 0xc33707d6, 0xf4d50d87, 0x455a14ed, 0xa9e3e905, 0xfcefa3f8, 0x676f02d9, 0x8d2a4c8a)
    else if i < 48 then
      Pick16(i - 32,
             0xfffa3942, 0x8771f681, 0x6d9d6122, 0xfde5380c, 0xa4beea44, 0x4bdecfa9, 0xf6bb4b60, 0xbebfbc70,
             0x289b7ec6, 0xeaa127fa, 0xd4ef3085, 0x04881d05, 0xd9d4d039, 0xe6db99e5, 0x1fa27cf8, 0xc4ac5665)
    else
      Pick16(i - 48,
             0xf4292244, 0x432aff97, 0xab9423a7, 0xfc93a039, 0x655b59c3, 0x8f0ccc92, 0xffeff47d, 0x85845dd1,
             0x6fa87e4f, 0xfe2ce6e0, 0xa3014314, 0x4e0811a1, 0xf7537e82, 0xbd3af235, 0x2ad7d2bb, 0xeb86d391)
  }

  /** What one operation consumes: its number, block word, rotation and constant. */
  datatype Input = Input(i: nat, x: bv32, n: Shift, t: bv32)

  /** One operation of section 3.4 of RFC 1321 followed by the renaming of the registers. */
  function Step(s: State, m: Input): State {
    Regs4(s.d, Add(Rol(Sum4(Mix(m.i, s.b, s.c, s.d), m.x, m.t, s.a), m.n), s.b), s.b, s.c)
  }

  /** Undoes one operation. */
  function Unstep(s: State, m: Input): State {
    Regs4(Unsum4(Ror(Sub(s.b, s.c), m.n), Mix(m.i, s.c, s.d, s.a), m.x, m.t), s.c, s.d, s.a)
  }

  function Inputs(xs: seq<bv32>): (ins: seq<Input>)
    requires |xs| == 16
    ensures |ins| == 64
  {
    seq(64, i requires 0 <= i < 64 => Input(i, xs[WordIndex(i)], Rotation(i), T(i)))
  }

  function Rounds(s: State, block: seq<byte>): State
    requires |block| == 64
  {
    Fold(Step, s, Inputs(Words32L(block)))
  }

  /** The compression function: the 64 operations, then the addition of the old state. */
  function Compress(s: State, block: seq<byte>): State
    requires |block| == 64
  {
    var r := Rounds(s, block);
    Regs4(Add(s.a, r.a), Add(s.b, r.b), Add(s.c, r.c), Add(s.d, r.d))
  }

  /** The registers r are where the standard is after i operations from s0 on the block words xs. */
  ghost predicate Reached(s0: State, xs: seq<bv32>, i: nat, r: State) {
    |xs| == 16 && i <= 64 && r == Fold(Step, s0, Inputs(xs)[..i])
  }

  lemma NextReached(s0: State, xs: seq<bv32>, i: nat, s: State)
    requires i < 64 && Reached(s0, xs, i, s)
    ensures var a := Add(Rol(Sum4(Mix(i, s.b, s.c, s.d), xs[WordIndex(i)], T(i), s.a), Rotation(i)), s.b);
            Reached(s0, xs, i + 1, Regs4(s.d, a, s.b, s.c))
  {
    hide Rol, Mix, Sum4, Add, WordIndex, Rotation, T;
    FoldNext(Step, s0, Inputs(xs), i);
  }

  // The four macros: each writes a, and renaming the registers one place round is then one operation
  // of the standard, provided the word, rotation and constant written at the call are the standard's.

  method FF(a: bv32, b: bv32, c: bv32, d: bv32, M: bv32, s: Shift, t: bv32,
            ghost xs: seq<bv32>, ghost i: nat, ghost s0: State) returns (a': bv32)
    requires |xs| == 16 && 0 <= i < 16 && Reached(s0, xs, i, Regs4(a, b, c, d))
    requires M == xs[WordIndex(i)] && s == Rotation(i) && t == T(i)
    ensures Reached(s0, xs, i + 1, Regs4(d, a', b, c))
  {
    hide Reached, Rol, Sum4, Add, WordIndex, Rotation, T;
    NextReached(s0, xs, i, Regs4(a, b, c, d));
    FIsStandard(b, c, d);
    hide F, StdF;
    a' := Sum4(F(b, c, d), M, t, a);
    a' := Add(Rol(a', s), b);
  }

  method GG(a: bv32, b: bv32, c: bv32, d: bv32, M: bv32, s: Shift, t: bv32,
            ghost xs: seq<bv32>, ghost i: nat, ghost s0: State) returns (a': bv32)
    requires |xs| == 16 && 16 <= i < 32 && Reached(s0, xs, i, Regs4(a, b, c, d))
    requires M == xs[WordIndex(i)] && s == Rotation(i) && t == T(i)
    ensures Reached(s0, xs, i + 1, Regs4(d, a', b, c))
  {
    hide Reached, Rol, Sum4, Add, WordIndex, Rotation, T;
    NextReached(s0, xs, i, Regs4(a, b, c, d));
    GIsStandard(b, c, d);
    hide G, StdG;
    a' := Sum4(G(b, c, d), M, t, a);
    a' := Add(Rol(a', s), b);
  }

  method HH(a: bv32, b: bv32, c: bv32, d: bv32, M: bv32, s: Shift, t: bv32,
            ghost xs: seq<bv32>, ghost i: nat, ghost s0: State) returns (a': bv32)
    requires |xs| == 16 && 32 <= i < 48 && Reached(s0, xs, i, Regs4(a, b, c, d))
    requires M == xs[WordIndex(i)] && s == Rotation(i) && t == T(i)
    ensures Reached(s0, xs, i + 1, Regs4(d, a', b, c))
  {
    hide Reached, Rol, Sum4, Add, WordIndex, Rotation, T;
    NextReached(s0, xs, i, Regs4(a, b, c, d));
    assert H(b, c, d) == StdH(b, c, d);
    hide H, StdH;
    a' := Sum4(H(b, c, d), M, t, a);
    a' := Add(Rol(a', s), b);
  }

  method II(a: bv32, b: bv32, c: bv32, d: bv32, M: bv32, s: Shift, t: bv32,
            ghost xs: seq<bv32>, ghost i: nat, ghost s0: State) returns (a': bv32)
    requires |xs| == 16 && 48 <= i < 64 && Reached(s0, xs, i, Regs4(a, b, c, d))
    requires M == xs[WordIndex(i)] && s == Rotation(i) && t == T(i)
    ensures Reached(s0, xs, i + 1, Regs4(d, a', b, c))
  {
    hide Reached, Rol, Sum4, Add, WordIndex, Rotation, T;
    NextReached(s0, xs, i, Regs4(a, b, c, d));
    assert I(b, c, d) == StdI(b, c, d);
    hide I, StdI;
    a' := Sum4(I(b, c, d), M, t, a);
    a' := Add(Rol(a', s), b);
  }

  // The unrolled operations, one method for each of the four functions.

  method FirstUnrolled(s0: State, W: seq<bv32>, s: State) returns (r: State)
    requires |W| == 16 && Reached(s0, W, 0, s)
    ensures Reached(s0, W, 16, r)
  {
    hide Reached;
    var a, b, c, d := s.a, s.b, s.c, s.d;
    a := FF(a, b, c, d, W[0], 7, 0xd76aa478, W, 0, s0);
    d := FF(d, a, b, c, W[1], 12, 0xe8c7b756, W, 1, s0);
    c := FF(c, d, a, b, W[2], 17, 0x242070db, W, 2, s0);
    b := FF(b, c, d, a, W[3], 22, 0xc1bdceee, W, 3, s0);
    a := FF(a, b, c, d, W[4], 7, 0xf57c0faf, W, 4, s0);
    d := FF(d, a, b, c, W[5], 12, 0x4787c62a, W, 5, s0);
    c := FF(c, d, a, b, W[6], 17, 0xa8304613, W, 6, s0);
    b := FF(b, c, d, a, W[7], 22, 0xfd469501, W, 7, s0);
    a := FF(a, b, c, d, W[8], 7, 0x698098d8, W, 8, s0);
    d := FF(d, a, b, c, W[9], 12, 0x8b44f7af, W, 9, s0);
    c := FF(c, d, a, b, W[10], 17, 0xffff5bb1, W, 10, s0);
    b := FF(b, c, d, a, W[11], 22, 0x895cd7be, W, 11, s0);
    a := FF(a, b, c, d, W[12], 7, 0x6b901122, W, 12, s0);
    d := FF(d, a, b, c, W[13], 12, 0xfd987193, W, 13, s0);
    c := FF(c, d, a, b, W[14], 17, 0xa679438e, W, 14, s0);
    b := FF(b, c, d, a, W[15], 22, 0x49b40821, W, 15, s0);
    r := Regs4(a, b, c, d);
  }

  method SecondUnrolled(s0: State, W: seq<bv32>, s: State) returns (r: State)
    requires |W| == 16 && Reached(s0, W, 16, s)
    ensures Reached(s0, W, 32, r)
  {
    hide Reached;
    var a, b, c, d := s.a, s.b, s.c, s.d;
    a := GG(a, b, c, d, W[1], 5, 0xf61e2562, W, 16, s0);
    d := GG(d, a, b, c, W[6], 9, 0xc040b340, W, 17, s0);
    c := GG(c, d, a, b, W[11], 14, 0x265e5a51, W, 18, s0);
    b := GG(b, c, d, a, W[0], 20, 0xe9b6c7aa, W, 19, s0);
    a := GG(a, b, c, d, W[5], 5, 0xd62f105d, W, 20, s0);
    d := GG(d, a, b, c, W[10], 9, 0x02441453, W, 21, s0);
    c := GG(c, d, a, b, W[15], 14, 0xd8a1e681, W, 22, s0);
    b := GG(b, c, d, a, W[4], 20, 0xe7d3fbc8, W, 23, s0);
    a := GG(a, b, c, d, W[9], 5, 0x21e1cde6, W, 24, s0);
    d := GG(d, a, b, c, W[14], 9, 0xc33707d6, W, 25, s0);
    c := GG(c, d, a, b, W[3], 14, 0xf4d50d87, W, 26, s0);
    b := GG(b, c, d, a, W[8], 20, 0x455a14ed, W, 27, s0);
    a := GG(a, b, c, d, W[13], 5, 0xa9e3e905, W, 28, s0);
    d := GG(d, a, b, c, W[2], 9, 0xfcefa3f8, W, 29, s0);
    c := GG(c, d, a, b, W[7], 14, 0x676f02d9, W, 30, s0);
    b := GG(b, c, d, a, W[12], 20, 0x8d2a4c8a, W, 31, s0);
    r := Regs4(a, b, c, d);
  }

  method ThirdUnrolled(s0: State, W: seq<bv32>, s: State) returns (r: State)
    requires |W| == 16 && Reached(s0, W, 32, s)
    ensures Reached(s0, W, 48, r)
  {
    hide Reached;
    var a, b, c, d := s.a, s.b, s.c, s.d;
    a := HH(a, b, c, d, W[5], 4, 0xfffa3942, W, 32, s0);
    d := HH(d, a, b, c, W[8], 11, 0x8771f681, W, 33, s0);
    c := HH(c, d, a, b, W[11], 16, 0x6d9d6122, W, 34, s0);
    b := HH(b, c, d, a, W[14], 23, 0xfde5380c, W, 35, s0);
    a := HH(a, b, c, d, W[1], 4, 0xa4beea44, W, 36, s0);
    d := HH(d, a, b, c, W[4], 11, 0x4bdecfa9, W, 37, s0);
    c := HH(c, d, a, b, W[7], 16, 0xf6bb4b60, W, 38, s0);
    b := HH(b, c, d, a, W[10], 23, 0xbebfbc70, W, 39, s0);
    a := HH(a, b, c, d, W[13], 4, 0x289b7ec6, W, 40, s0);
    d := HH(d, a, b, c, W[0], 11, 0xeaa127fa, W, 41, s0);
    c := HH(c, d, a, b, W[3], 16, 0xd4ef3085, W, 42, s0);
    b := HH(b, c, d, a, W[6], 23, 0x04881d05, W, 43, s0);
    a := HH(a, b, c, d, W[9], 4, 0xd9d4d039, W, 44, s0);
    d := HH(d, a, b, c, W[12], 11, 0xe6db99e5, W, 45, s0);
    c := HH(c, d, a, b, W[15], 16, 0x1fa27cf8, W, 46, s0);
    b := HH(b, c, d, a, W[2], 23, 0xc4ac5665, W, 47, s0);
    r := Regs4(a, b, c, d);
  }

  method FourthUnrolled(s0: State, W: seq<bv32>, s: State) returns (r: State)
    requires |W| == 16 && Reached(s0, W, 48, s)
    ensures Reached(s0, W, 64, r)
  {
    hide Reached;
    var a, b, c, d := s.a, s.b, s.c, s.d;
    a := II(a, b, c, d, W[0], 6, 0xf4292244, W, 48, s0);
    d := II(d, a, b, c, W[7], 10, 0x432aff97, W, 49, s0);
    c := II(c, d, a, b, W[14], 15, 0xab9423a7, W, 50, s0);
    b := II(b, c, d, a, W[5], 21, 0xfc93a039, W, 51, s0);
    a := II(a, b, c, d, W[12], 6, 0x655b59c3, W, 52, s0);
    d := II(d, a, b, c, W[3], 10, 0x8f0ccc92, W, 53, s0);
    c := II(c, d, a, b, W[10], 15, 0xffeff47d, W, 54, s0);
    b := II(b, c, d, a, W[1], 21, 0x85845dd1, W, 55, s0);
    a := II(a, b, c, d, W[8], 6, 0x6fa87e4f, W, 56, s0);
    d := II(d, a, b, c, W[15], 10, 0xfe2ce6e0, W, 57, s0);
    c := II(c, d, a, b, W[6], 15, 0xa3014314, W, 58, s0);
    b := II(b, c, d, a, W[13], 21, 0x4e0811a1, W, 59, s0);
    a := II(a, b, c, d, W[4], 6, 0xf7537e82, W, 60, s0);
    d := II(d, a, b, c, W[11], 10, 0xbd3af235, W, 61, s0);
    c := II(c, d, a, b, W[2], 15, 0x2ad7d2bb, W, 62, s0);
    b := II(b, c, d, a, W[9], 21, 0xeb86d391, W, 63, s0);
    r := Regs4(a, b, c, d);
  }

  /** The rolled operations (LTC_SMALL_CODE): the arguments stay put and the variables are shifted. */
  method RolledRounds(s0: State, W: array<bv32>) returns (r: State)
    requires W.Length == 16 && Reached(s0, W[..], 0, s0)
    ensures Reached(s0, W[..], 64, r)
  {
    hide Reached, T, WordIndex, Rotation;
    var a, b, c, d := s0.a, s0.b, s0.c, s0.d;
    var t;
    var i := 0;
    while i < 16
      invariant 0 <= i <= 16 && Reached(s0, W[..], i, Regs4(a, b, c, d))
    {
      a := FF(a, b, c, d, W[WordIndex(i)], Rotation(i), T(i), W[..], i, s0);
      t := d; d := c; c := b; b := a; a := t;
      i := i + 1;
    }
    while i < 32
      invariant 16 <= i <= 32 && Reached(s0, W[..], i, Regs4(a, b, c, d))
    {
      a := GG(a, b, c, d, W[WordIndex(i)], Rotation(i), T(i), W[..], i, s0);
      t := d; d := c; c := b; b := a; a := t;
      i := i + 1;
    }
    while i < 48
      invariant 32 <= i <= 48 && Reached(s0, W[..], i, Regs4(a, b, c, d))
    {
      a := HH(a, b, c, d, W[WordIndex(i)], Rotation(i), T(i), W[..], i, s0);
      t := d; d := c; c := b; b := a; a := t;
      i := i + 1;
    }
    while i < 64
      invariant 48 <= i <= 64 && Reached(s0, W[..], i, Regs4(a, b, c, d))
    {
      a := II(a, b, c, d, W[WordIndex(i)], Rotation(i), T(i), W[..], i, s0);
      t := d; d := c; c := b; b := a; a := t;
      i := i + 1;
    }
    r := Regs4(a, b, c, d);
  }

  /** Loads the sixteen block words little-endian. */
  method LoadBlock(buf: seq<byte>) returns (W: array<bv32>)
    requires |buf| == 64
    ensures fresh(W) && W.Length == 16 && W[..] == Words32L(buf)
  {
    hide Load32L;
    W := new bv32[16];
    for i := 0 to 16
      invariant W[..i] == Words32L(buf)[..i]
    {
      W[i] := Load32L(buf[4 * i..4 * i + 4]);
    }
    assert W[..] == W[..16];
  }

  /** The registers held by the four words of md->md5.state. */
  ghost function View(state: array<bv32>): State
    requires state.Length == 4
    reads state
  {
    Regs4(state[0], state[1], state[2], state[3])
  }

  /** md5_compress in its unrolled form. */
  method CompressUnrolled(state: array<bv32>, buf: seq<byte>)
    requires state.Length == 4 && |buf| == 64
    modifies state
    ensures View(state) == Compress(old(View(state)), buf)
  {
    hide Step, Add, T, WordIndex, Rotation;
    var W := LoadBlock(buf);
    var s0 := Regs4(state[0], state[1], state[2], state[3]);
    var r := FirstUnrolled(s0, W[..], s0);
    r := SecondUnrolled(s0, W[..], r);
    r := ThirdUnrolled(s0, W[..], r);
    r := FourthUnrolled(s0, W[..], r);
    assert Inputs(W[..])[..64] == Inputs(W[..]);
    Store(state, r);
  }

  /** md5_compress in its table-driven form (LTC_SMALL_CODE). */
  method CompressRolled(state: array<bv32>, buf: seq<byte>)
    requires state.Length == 4 && |buf| == 64
    modifies state
    ensures View(state) == Compress(old(View(state)), buf)
  {
    hide Step, Add, T, WordIndex, Rotation;
    var W := LoadBlock(buf);
    var r := RolledRounds(Regs4(state[0], state[1], state[2], state[3]), W);
    assert Inputs(W[..])[..64] == Inputs(W[..]);
    Store(state, r);
  }

  method Store(state: array<bv32>, r: State)
    requires state.Length == 4
    modifies state
    ensures state[0] == Add(old(state[0]), r.a) && state[1] == Add(old(state[1]), r.b)
    ensures state[2] == Add(old(state[2]), r.c) && state[3] == Add(old(state[3]), r.d)
  {
    hide Add;
    state[0] := Add(state[0], r.a);
    state[1] := Add(state[1], r.b);
    state[2] := Add(state[2], r.c);
    state[3] := Add(state[3], r.d);
  }

  lemma StepInverse()
    ensures Inverse(Step, Unstep)
  {
    hide Mix;
    forall s, m ensures Unstep(Step(s, m), m) == s && Step(Unstep(s, m), m) == s {
      var sum := Sum4(Mix(m.i, s.b, s.c, s.d), m.x, m.t, s.a);
      Sum4Unsum4(Mix(m.i, s.b, s.c, s.d), m.x, m.t, s.a);
      RorRol(sum, m.n);
      AddSub(Rol(sum, m.n), s.b);
      var dif := Sub(s.b, s.c);
      Unsum4Sum4(Mix(m.i, s.c, s.d, s.a), m.x, m.t, Ror(dif, m.n));
      RolRor(dif, m.n);
      SubAdd(s.b, s.c);
      hide Rol, Ror, Add, Sub, Sum4, Unsum4;
    }
  }

  /** For a fixed block the 64 operations are a bijection on the chaining state. */
  lemma RoundsBijection(s: State, block: seq<byte>)
    requires |block| == 64
    ensures var ins := Inputs(Words32L(block));
            Unfold(Unstep, Rounds(s, block), ins) == s && Fold(Step, Unfold(Unstep, s, ins), ins) == s
  {
    StepInverse();
    FoldBijection(Step, Unstep, s, Inputs(Words32L(block)));
  }
}
