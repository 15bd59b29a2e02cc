/** RIPEMD-160 compression: the two unrolled lines of the code and the table-driven two-line
    definition in appendix A of Dobbertin, Bosselaers and Preneel, "RIPEMD-160: A Strengthened
    Version of RIPEMD". */
module Rmd160 {
  import opened Words
  import opened Registers
  import opened Folds
  import opened Tables

  type State = Regs5<bv32>

  // The five basic functions.

  function F(x: bv32, y: bv32, z: bv32): bv32 { x ^ y ^ z }

  function G(x: bv32, y: bv32, z: bv32): bv32 { (x & y) | (!x & z) }

  function H(x: bv32, y: bv32, z: bv32): bv32 { (x | !y) ^ z }

  function I(x: bv32, y: bv32, z: bv32): bv32 { (x & z) | (y & !z) }

  function J(x: bv32, y: bv32, z: bv32): bv32 { x ^ (y | !z) }

  /** The function f(j, x, y, z) of the definition; the right line uses f(79 - j). */
  function Mix(j: nat, x: bv32, y: bv32, z: bv32): bv32 {
    if j < 16 then F(x, y, z)
    else if j < 32 then G(x, y, z)
    else if j < 48 then H(x, y, z)
    else if j < 64 then I(x, y, z)
    else J(x, y, z)
  }

  datatype Line = Left | Right

  function Constant(line: Line, j: nat): bv32 {
    match line
    case Left =>
      if j < 16 then 0 else if j < 32 then 0x5a827999 else if j < 48 then 0x6ed9eba1
      else if j < 64 then 0x8f1bbcdc else 0xa953fd4e
    case Right =>
      if j < 16 then 0x50a28be6 else if j < 32 then 0x5c4dd124 else if j < 48 then 0x6d703ef3
      else if j < 64 then 0x7a6d76e9 else 0
  }

  /** A place in the block. */
  type Index = k: nat | k < 16

  /** The selection of message words, r(j) and r'(j). */
  function WordIndex(line: Line, j: nat): Index {
    match line
    case Left =>
      if j < 16 then Pick16(j, 0, 1, 2, 3, 4, 5, 6, 7, 8, 9, 10, 11, 12, 13, 14, 15)
      else if j < 32 then Pick16(j - 16, 7, 4, 13, 1, 10, 6, 15, 3, 12, 0, 9, 5, 2, 14, 11, 8)
      else if j < 48 then Pick16(j - 32, 3, 10, 14, 4, 9, 15, 8, 1, 2, 7, 0, 6, 13, 11, 5, 12)
      else if j < 64 then Pick16(j - 48, 1, 9, 11, 10, 0, 8, 12, 4, 13, 3, 7, 15, 14, 5, 6, 2)
      else Pick16(j - 64, 4, 0, 5, 9, 7, 12, 2, 10, 14, 1, 3, 8, 11, 6, 15, 13)
    case Right =>
      if j < 16 then Pick16(j, 5, 14, 7, 0, 9, 2, 11, 4, 13, 6, 15, 8, 1, 10, 3, 12)
      else if j < 32 then Pick16(j - 16, 6, 11, 3, 7, 0, 13, 5, 10, 14, 15, 8, 12, 4, 9, 1, 2)
      else if j < 48 then Pick16(j - 32, 15, 5, 1, 3, 7, 14, 6, 9, 11, 8, 12, 2, 10, 0, 4, 13)
      else if j < 64 then Pick16(j - 48, 8, 6, 4, 1, 3, 11, 15, 0, 5, 12, 2, 13, 9, 7, 10, 14)
      else Pick16(j - 64, 12, 15, 10, 4, 1, 5, 8, 7, 6, 2, 13, 14, 0, 3, 9, 11)
  }

  /** The amount of rotation, s(j) and s'(j). */
  function Rotation(line: Line, j: nat): Shift {
    match line
    case Left =>
      if j < 16 then Pick16(j, 11, 14, 15, 12, 5, 8, 7, 9, 11, 13, 14, 15, 6, 7, 9, 8)
      else if j < 32 then Pick16(j - 16, 7, 6, 8, 13, 11, 9, 7, 15, 7, 12, 15, 9, 11, 7, 13, 12)
      else if j < 48 then Pick16(j - 32, 11, 13, 6, 7, 14, 9, 13, 15, 14, 8, 13, 6, 5, 12, 7, 5)
      else if j < 64 then Pick16(j - 48, 11, 12, 14, 15, 14, 15, 9, 8, 9, 14, 5, 6, 8, 6, 5, 12)
      else Pick16(j - 64, 9, 15, 5, 11, 6, 8, 13, 12, 5, 12, 13, 14, 11, 8, 5, 6)
    case Right =>
      if j < 16 then Pick16(j, 8, 9, 9, 11, 13, 15, 15, 5, 7, 7, 8, 11, 14, 14, 12, 6)
      else if j < 32 then Pick16(j - 16, 9, 13, 15, 7, 12, 8, 9, 11, 7, 7, 12, 7, 6, 15, 13, 11)
      else if j < 48 then Pick16(j - 32, 9, 7, 15, 11, 8, 6, 6, 14, 12, 13, 5, 14, 13, 13, 7, 5)
      else if j < 64 then Pick16(j - 48, 15, 5, 8, 11, 14, 14, 6, 14, 6, 9, 12, 9, 12, 5, 15, 8)
      else Pick16(j - 64, 8, 5, 12, 9, 12, 5, 14, 6, 8, 13, 6, 5, 15, 13, 11, 11)
  }

  /** What one step of a line consumes: the number of its function, block word, constant and rotation. */
  datatype Input = Input(f: nat, x: bv32, k: bv32, n: Shift)

  /** One step of a line. */
  function Step(s: State, m: Input): State {
    var t := Add(Rol(Sum4(Mix(m.f, s.b, s.c, s.d), m.x, m.k, s.a), m.n), s.e);
    Regs5(s.e, t, s.b, Rol(s.c, 10), s.d)
  }

  /** Undoes one step of a line. */
  function Unstep(s: State, m: Input): State {
    var c := Ror(s.d, 10);
    Regs5(Unsum4(Ror(Sub(s.b, s.a), m.n), Mix(m.f, s.c, c, s.e), m.x, m.k), s.c, c, s.e, s.a)
  }

  function Inputs(line: Line, xs: seq<bv32>): (ins: seq<Input>)
    requires |xs| == 16
    ensures |ins| == 80
  {
    seq(80, j requires 0 <= j < 80 =>
      Input(if line.Left? then j else 79 - j, xs[WordIndex(line, j)], Constant(line, j), Rotation(line, j)))
  }

  /** The eighty steps of a line. */
  function Run(line: Line, s: State, block: seq<byte>): State
    requires |block| == 64
  {
    Fold(Step, s, Inputs(line, Words32L(block)))
  }

  function Sum3(x: bv32, y: bv32, z: bv32): bv32 { x + y + z }

  /** The compression function: both lines from the same state, then the cross-combination. */
  function Compress(h: State, block: seq<byte>): State
    requires |block| == 64
  {
    var l, r := Run(Left, h, block), Run(Right, h, block);
    Regs5(Sum3(h.b, l.c, r.d), Sum3(h.c, l.d, r.e), Sum3(h.d, l.e, r.a), Sum3(h.e, l.a, r.b), Sum3(h.a, l.b, r.c))
  }

  /** The registers r are where the definition is after j steps of a line from s0 on the block words xs. */
  ghost predicate Reached(line: Line, s0: State, xs: seq<bv32>, j: nat, r: State) {
    |xs| == 16 && j <= 80 && r == Fold(Step, s0, Inputs(line, xs)[..j])
  }

  lemma NextReached(line: Line, s0: State, xs: seq<bv32>, j: nat, s: State)
    requires j < 80 && Reached(line, s0, xs, j, s)
    ensures var m := if line.Left? then j else 79 - j;
            var sum := Sum4(Mix(m, s.b, s.c, s.d), xs[WordIndex(line, j)], Constant(line, j), s.a);
            Reached(line, s0, xs, j + 1, Regs5(s.e, Add(Rol(sum, Rotation(line, j)), s.e), s.b, Rol(s.c, 10), s.d))
  {
    hide Rol, Mix, Sum4, Add, WordIndex, Rotation, Constant;
    FoldNext(Step, s0, Inputs(line, xs), j);
  }

  // The ten macros: each writes a and c, and renaming the registers one place round is then one step of
  // its line, provided the word and rotation written at the call are the definition's.

  method FF(a: bv32, b: bv32, c: bv32, d: bv32, e: bv32, x: bv32, s: Shift,
            ghost j: nat, ghost s0: State, ghost xs: seq<bv32>) returns (a': bv32, c': bv32)
    requires 0 <= j < 16 && Reached(Left, s0, xs, j, Regs5(a, b, c, d, e))
    requires |xs| == 16 && x == xs[WordIndex(Left, j)] && s == Rotation(Left, j)
    ensures Reached(Left, s0, xs, j + 1, Regs5(e, a', b, c', d))
  {
    hide Reached, Rol, Sum4, Add, WordIndex, Rotation, F, G, H, I, J;
    NextReached(Left, s0, xs, j, Regs5(a, b, c, d, e));
    a' := Sum4(F(b, c, d), x, 0, a);
    a' := Add(Rol(a', s), e);
    c' := Rol(c, 10);
  }

  method GG(a: bv32, b: bv32, c: bv32, d: bv32, e: bv32, x: bv32, s: Shift,
            ghost j: nat, ghost s0: State, ghost xs: seq<bv32>) returns (a': bv32, c': bv32)
    requires 16 <= j < 32 && Reached(Left, s0, xs, j, Regs5(a, b, c, d, e))
    requires |xs| == 16 && x == xs[WordIndex(Left, j)] && s == Rotation(Left, j)
    ensures Reached(Left, s0, xs, j + 1, Regs5(e, a', b, c', d))
  {
    hide Reached, Rol, Sum4, Add, WordIndex, Rotation, F, G, H, I, J;
    NextReached(Left, s0, xs, j, Regs5(a, b, c, d, e));
    a' := Sum4(G(b, c, d), x, 0x5a827999, a);
    a' := Add(Rol(a', s), e);
    c' := Rol(c, 10);
  }

  method HH(a: bv32, b: bv32, c: bv32, d: bv32, e: bv32, x: bv32, s: Shift,
            ghost j: nat, ghost s0: State, ghost xs: seq<bv32>) returns (a': bv32, c': bv32)
    requires 32 <= j < 48 && Reached(Left, s0, xs, j, Regs5(a, b, c, d, e))
    requires |xs| == 16 && x == xs[WordIndex(Left, j)] && s == Rotation(Left, j)
    ensures Reached(Left, s0, xs, j + 1, Regs5(e, a', b, c', d))
  {
    hide Reached, Rol, Sum4, Add, WordIndex, Rotation, F, G, H, I, J;
    NextReached(Left, s0, xs, j, Regs5(a, b, c, d, e));
    a' := Sum4(H(b, c, d), x, 0x6ed9eba1, a);
    a' := Add(Rol(a', s), e);
    c' := Rol(c, 10);
  }

  method II(a: bv32, b: bv32, c: bv32, d: bv32, e: bv32, x: bv32, s: Shift,
            ghost j: nat, ghost s0: State, ghost xs: seq<bv32>) returns (a': bv32, c': bv32)
    requires 48 <= j < 64 && Reached(Left, s0, xs, j, Regs5(a, b, c, d, e))
    requires |xs| == 16 && x == xs[WordIndex(Left, j)] && s == Rotation(Left, j)
    ensures Reached(Left, s0, xs, j + 1, Regs5(e, a', b, c', d))
  {
    hide Reached, Rol, Sum4, Add, WordIndex, Rotation, F, G, H, I, J;
    NextReached(Left, s0, xs, j, Regs5(a, b, c, d, e));
    a' := Sum4(I(b, c, d), x, 0x8f1bbcdc, a);
    a' := Add(Rol(a', s), e);
    c' := Rol(c, 10);
  }

  method JJ(a: bv32, b: bv32, c: bv32, d: bv32, e: bv32, x: bv32, s: Shift,
            ghost j: nat, ghost s0: State, ghost xs: seq<bv32>) returns (a': bv32, c': bv32)
    requires 64 <= j < 80 && Reached(Left, s0, xs, j, Regs5(a, b, c, d, e))
    requires |xs| == 16 && x == xs[WordIndex(Left, j)] && s == Rotation(Left, j)
    ensures Reached(Left, s0, xs, j + 1, Regs5(e, a', b, c', d))
  {
    hide Reached, Rol, Sum4, Add, WordIndex, Rotation, F, G, H, I, J;
    NextReached(Left, s0, xs, j, Regs5(a, b, c, d, e));
    a' := Sum4(J(b, c, d), x, 0xa953fd4e, a);
    a' := Add(Rol(a', s), e);
    c' := Rol(c, 10);
  }

  method JJJ(a: bv32, b: bv32, c: bv32, d: bv32, e: bv32, x: bv32, s: Shift,
            ghost j: nat, ghost s0: State, ghost xs: seq<bv32>) returns (a': bv32, c': bv32)
    requires 0 <= j < 16 && Reached(Right, s0, xs, j, Regs5(a, b, c, d, e))
    requires |xs| == 16 && x == xs[WordIndex(Right, j)] && s == Rotation(Right, j)
    ensures Reached(Right, s0, xs, j + 1, Regs5(e, a', b, c', d))
  {
    hide Reached, Rol, Sum4, Add, WordIndex, Rotation, F, G, H, I, J;
    NextReached(Right, s0, xs, j, Regs5(a, b, c, d, e));
    a' := Sum4(J(b, c, d), x, 0x50a28be6, a);
    a' := Add(Rol(a', s), e);
    c' := Rol(c, 10);
  }

  method III(a: bv32, b: bv32, c: bv32, d: bv32, e: bv32, x: bv32, s: Shift,
            ghost j: nat, ghost s0: State, ghost xs: seq<bv32>) returns (a': bv32, c': bv32)
    requires 16 <= j < 32 && Reached(Right, s0, xs, j, Regs5(a, b, c, d, e))
    requires |xs| == 16 && x == xs[WordIndex(Right, j)] && s == Rotation(Right, j)
    ensures Reached(Right, s0, xs, j + 1, Regs5(e, a', b, c', d))
  {
    hide Reached, Rol, Sum4, Add, WordIndex, Rotation, F, G, H, I, J;
    NextReached(Right, s0, xs, j, Regs5(a, b, c, d, e));
    a' := Sum4(I(b, c, d), x, 0x5c4dd124, a);
    a' := Add(Rol(a', s), e);
    c' := Rol(c, 10);
  }

  method HHH(a: bv32, b: bv32, c: bv32, d: bv32, e: bv32, x: bv32, s: Shift,
            ghost j: nat, ghost s0: State, ghost xs: seq<bv32>) returns (a': bv32, c': bv32)
    requires 32 <= j < 48 && Reached(Right, s0, xs, j, Regs5(a, b, c, d, e))
    requires |xs| == 16 && x == xs[WordIndex(Right, j)] && s == Rotation(Right, j)
    ensures Reached(Right, s0, xs, j + 1, Regs5(e, a', b, c', d))
  {
    hide Reached, Rol, Sum4, Add, WordIndex, Rotation, F, G, H, I, J;
    NextReached(Right, s0, xs, j, Regs5(a, b, c, d, e));
    a' := Sum4(H(b, c, d), x, 0x6d703ef3, a);
    a' := Add(Rol(a', s), e);
    c' := Rol(c, 10);
  }

  method GGG(a: bv32, b: bv32, c: bv32, d: bv32, e: bv32, x: bv32, s: Shift,
            ghost j: nat, ghost s0: State, ghost xs: seq<bv32>) returns (a': bv32, c': bv32)
    requires 48 <= j < 64 && Reached(Right, s0, xs, j, Regs5(a, b, c, d, e))
    requires |xs| == 16 && x == xs[WordIndex(Right, j)] && s == Rotation(Right, j)
    ensures Reached(Right, s0, xs, j + 1, Regs5(e, a', b, c', d))
  {
    hide Reached, Rol, Sum4, Add, WordIndex, Rotation, F, G, H, I, J;
    NextReached(Right, s0, xs, j, Regs5(a, b, c, d, e));
    a' := Sum4(G(b, c, d), x, 0x7a6d76e9, a);
    a' := Add(Rol(a', s), e);
    c' := Rol(c, 10);
  }

  method FFF(a: bv32, b: bv32, c: bv32, d: bv32, e: bv32, x: bv32, s: Shift,
            ghost j: nat, ghost s0: State, ghost xs: seq<bv32>) returns (a': bv32, c': bv32)
    requires 64 <= j < 80 && Reached(Right, s0, xs, j, Regs5(a, b, c, d, e))
    requires |xs| == 16 && x == xs[WordIndex(Right, j)] && s == Rotation(Right, j)
    ensures Reached(Right, s0, xs, j + 1, Regs5(e, a', b, c', d))
  {
    hide Reached, Rol, Sum4, Add, WordIndex, Rotation, F, G, H, I, J;
    NextReached(Right, s0, xs, j, Regs5(a, b, c, d, e));
    a' := Sum4(F(b, c, d), x, 0, a);
    a' := Add(Rol(a', s), e);
    c' := Rol(c, 10);
  }

  // The unrolled rounds of each line; r holds the variables aa to ee in alphabetical order, and the
  // definition's registers are found one place further round after each step.

  method LeftRound1(r: State, X: seq<bv32>, ghost s0: State) returns (r': State)
    requires |X| == 16 && Reached(Left, s0, X, 0, Regs5(r.a, r.b, r.c, r.d, r.e))
    ensures Reached(Left, s0, X, 16, Regs5(r'.e, r'.a, r'.b, r'.c, r'.d))
  {
    hide Reached;
    var aa, bb, cc, dd, ee := r.a, r.b, r.c, r.d, r.e;
    aa, cc := FF(aa, bb, cc, dd, ee, X[0], 11, 0, s0, X);
    ee, bb := FF(ee, aa, bb, cc, dd, X[1], 14, 1, s0, X);
    dd, aa := FF(dd, ee, aa, bb, cc, X[2], 15, 2, s0, X);
    cc, ee := FF(cc, dd, ee, aa, bb, X[3], 12, 3, s0, X);
    bb, dd := FF(bb, cc, dd, ee, aa, X[4], 5, 4, s0, X);
    aa, cc := FF(aa, bb, cc, dd, ee, X[5], 8, 5, s0, X);
    ee, bb := FF(ee, aa, bb, cc, dd, X[6], 7, 6, s0, X);
    dd, aa := FF(dd, ee, aa, bb, cc, X[7], 9, 7, s0, X);
    cc, ee := FF(cc, dd, ee, aa, bb, X[8], 11, 8, s0, X);
    bb, dd := FF(bb, cc, dd, ee, aa, X[9], 13, 9, s0, X);
    aa, cc := FF(aa, bb, cc, dd, ee, X[10], 14, 10, s0, X);
    ee, bb := FF(ee, aa, bb, cc, dd, X[11], 15, 11, s0, X);
    dd, aa := FF(dd, ee, aa, bb, cc, X[12], 6, 12, s0, X);
    cc, ee := FF(cc, dd, ee, aa, bb, X[13], 7, 13, s0, X);
    bb, dd := FF(bb, cc, dd, ee, aa, X[14], 9, 14, s0, X);
    aa, cc := FF(aa, bb, cc, dd, ee, X[15], 8, 15, s0, X);
    r' := Regs5(aa, bb, cc, dd, ee);
  }

  method LeftRound2(r: State, X: seq<bv32>, ghost s0: State) returns (r': State)
    requires |X| == 16 && Reached(Left, s0, X, 16, Regs5(r.e, r.a, r.b, r.c, r.d))
    ensures Reached(Left, s0, X, 32, Regs5(r'.d, r'.e, r'.a, r'.b, r'.c))
  {
    hide Reached;
    var aa, bb, cc, dd, ee := r.a, r.b, r.c, r.d, r.e;
    ee, bb := GG(ee, aa, bb, cc, dd, X[7], 7, 16, s0, X);
    dd, aa := GG(dd, ee, aa, bb, cc, X[4], 6, 17, s0, X);
    cc, ee := GG(cc, dd, ee, aa, bb, X[13], 8, 18, s0, X);
    bb, dd := GG(bb, cc, dd, ee, aa, X[1], 13, 19, s0, X);
    aa, cc := GG(aa, bb, cc, dd, ee, X[10], 11, 20, s0, X);
    ee, bb := GG(ee, aa, bb, cc, dd, X[6], 9, 21, s0, X);
    dd, aa := GG(dd, ee, aa, bb, cc, X[15], 7, 22, s0, X);
    cc, ee := GG(cc, dd, ee, aa, bb, X[3], 15, 23, s0, X);
    bb, dd := GG(bb, cc, dd, ee, aa, X[12], 7, 24, s0, X);
    aa, cc := GG(aa, bb, cc, dd, ee, X[0], 12, 25, s0, X);
    ee, bb := GG(ee, aa, bb, cc, dd, X[9], 15, 26, s0, X);
    dd, aa := GG(dd, ee, aa, bb, cc, X[5], 9, 27, s0, X);
    cc, ee := GG(cc, dd, ee, aa, bb, X[2], 11, 28, s0, X);
    bb, dd := GG(bb, cc, dd, ee, aa, X[14], 7, 29, s0, X);
    aa, cc := GG(aa, bb, cc, dd, ee, X[11], 13, 30, s0, X);
    ee, bb := GG(ee, aa, bb, cc, dd, X[8], 12, 31, s0, X);
    r' := Regs5(aa, bb, cc, dd, ee);
  }

  method LeftRound3(r: State, X: seq<bv32>, ghost s0: State) returns (r': State)
    requires |X| == 16 && Reached(Left, s0, X, 32, Regs5(r.d, r.e, r.a, r.b, r.c))
    ensures Reached(Left, s0, X, 48, Regs5(r'.c, r'.d, r'.e, r'.a, r'.b))
  {
    hide Reached;
    var aa, bb, cc, dd, ee := r.a, r.b, r.c, r.d, r.e;
    dd, aa := HH(dd, ee, aa, bb, cc, X[3], 11, 32, s0, X);
    cc, ee := HH(cc, dd, ee, aa, bb, X[10], 13, 33, s0, X);
    bb, dd := HH(bb, cc, dd, ee, aa, X[14], 6, 34, s0, X);
    aa, cc := HH(aa, bb, cc, dd, ee, X[4], 7, 35, s0, X);
    ee, bb := HH(ee, aa, bb, cc, dd, X[9], 14, 36, s0, X);
    dd, aa := HH(dd, ee, aa, bb, cc, X[15], 9, 37, s0, X);
    cc, ee := HH(cc, dd, ee, aa, bb, X[8], 13, 38, s0, X);
    bb, dd := HH(bb, cc, dd, ee, aa, X[1], 15, 39, s0, X);
    aa, cc := HH(aa, bb, cc, dd, ee, X[2], 14, 40, s0, X);
    ee, bb := HH(ee, aa, bb, cc, dd, X[7], 8, 41, s0, X);
    dd, aa := HH(dd, ee, aa, bb, cc, X[0], 13, 42, s0, X);
    cc, ee := HH(cc, dd, ee, aa, bb, X[6], 6, 43, s0, X);
    bb, dd := HH(bb, cc, dd, ee, aa, X[13], 5, 44, s0, X);
    aa, cc := HH(aa, bb, cc, dd, ee, X[11], 12, 45, s0, X);
    ee, bb := HH(ee, aa, bb, cc, dd, X[5], 7, 46, s0, X);
    dd, aa := HH(dd, ee, aa, bb, cc, X[12], 5, 47, s0, X);
    r' := Regs5(aa, bb, cc, dd, ee);
  }

  method LeftRound4(r: State, X: seq<bv32>, ghost s0: State) returns (r': State)
    requires |X| == 16 && Reached(Left, s0, X, 48, Regs5(r.c, r.d, r.e, r.a, r.b))
    ensures Reached(Left, s0, X, 64, Regs5(r'.b, r'.c, r'.d, r'.e, r'.a))
  {
    hide Reached;
    var aa, bb, cc, dd, ee := r.a, r.b, r.c, r.d, r.e;
    cc, ee := II(cc, dd, ee, aa, bb, X[1], 11, 48, s0, X);
    bb, dd := II(bb, cc, dd, ee, aa, X[9], 12, 49, s0, X);
    aa, cc := II(aa, bb, cc, dd, ee, X[11], 14, 50, s0, X);
    ee, bb := II(ee, aa, bb, cc, dd, X[10], 15, 51, s0, X);
    dd, aa := II(dd, ee, aa, bb, cc, X[0], 14, 52, s0, X);
    cc, ee := II(cc, dd, ee, aa, bb, X[8], 15, 53, s0, X);
    bb, dd := II(bb, cc, dd, ee, aa, X[12], 9, 54, s0, X);
    aa, cc := II(aa, bb, cc, dd, ee, X[4], 8, 55, s0, X);
    ee, bb := II(ee, aa, bb, cc, dd, X[13], 9, 56, s0, X);
    dd, aa := II(dd, ee, aa, bb, cc, X[3], 14, 57, s0, X);
    cc, ee := II(cc, dd, ee, aa, bb, X[7], 5, 58, s0, X);
    bb, dd := II(bb, cc, dd, ee, aa, X[15], 6, 59, s0, X);
    aa, cc := II(aa, bb, cc, dd, ee, X[14], 8, 60, s0, X);
    ee, bb := II(ee, aa, bb, cc, dd, X[5], 6, 61, s0, X);
    dd, aa := II(dd, ee, aa, bb, cc, X[6], 5, 62, s0, X);
    cc, ee := II(cc, dd, ee, aa, bb, X[2], 12, 63, s0, X);
    r' := Regs5(aa, bb, cc, dd, ee);
  }

  method LeftRound5(r: State, X: seq<bv32>, ghost s0: State) returns (r': State)
    requires |X| == 16 && Reached(Left, s0, X, 64, Regs5(r.b, r.c, r.d, r.e, r.a))
    ensures Reached(Left, s0, X, 80, Regs5(r'.a, r'.b, r'.c, r'.d, r'.e))
  {
    hide Reached;
    var aa, bb, cc, dd, ee := r.a, r.b, r.c, r.d, r.e;
    bb, dd := JJ(bb, cc, dd, ee, aa, X[4], 9, 64, s0, X);
    aa, cc := JJ(aa, bb, cc, dd, ee, X[0], 15, 65, s0, X);
    ee, bb := JJ(ee, aa, bb, cc, dd, X[5], 5, 66, s0, X);
    dd, aa := JJ(dd, ee, aa, bb, cc, X[9], 11, 67, s0, X);
    cc, ee := JJ(cc, dd, ee, aa, bb, X[7], 6, 68, s0, X);
    bb, dd := JJ(bb, cc, dd, ee, aa, X[12], 8, 69, s0, X);
    aa, cc := JJ(aa, bb, cc, dd, ee, X[2], 13, 70, s0, X);
    ee, bb := JJ(ee, aa, bb, cc, dd, X[10], 12, 71, s0, X);
    dd, aa := JJ(dd, ee, aa, bb, cc, X[14], 5, 72, s0, X);
    cc, ee := JJ(cc, dd, ee, aa, bb, X[1], 12, 73, s0, X);
    bb, dd := JJ(bb, cc, dd, ee, aa, X[3], 13, 74, s0, X);
    aa, cc := JJ(aa, bb, cc, dd, ee, X[8], 14, 75, s0, X);
    ee, bb := JJ(ee, aa, bb, cc, dd, X[11], 11, 76, s0, X);
    dd, aa := JJ(dd, ee, aa, bb, cc, X[6], 8, 77, s0, X);
    cc, ee := JJ(cc, dd, ee, aa, bb, X[15], 5, 78, s0, X);
    bb, dd := JJ(bb, cc, dd, ee, aa, X[13], 6, 79, s0, X);
    r' := Regs5(aa, bb, cc, dd, ee);
  }

  method RightRound1(r: State, X: seq<bv32>, ghost s0: State) returns (r': State)
    requires |X| == 16 && Reached(Right, s0, X, 0, Regs5(r.a, r.b, r.c, r.d, r.e))
    ensures Reached(Right, s0, X, 16, Regs5(r'.e, r'.a, r'.b, r'.c, r'.d))
  {
    hide Reached;
    var aaa, bbb, ccc, ddd, eee := r.a, r.b, r.c, r.d, r.e;
    aaa, ccc := JJJ(aaa, bbb, ccc, ddd, eee, X[5], 8, 0, s0, X);
    eee, bbb := JJJ(eee, aaa, bbb, ccc, ddd, X[14], 9, 1, s0, X);
    ddd, aaa := JJJ(ddd, eee, aaa, bbb, ccc, X[7], 9, 2, s0, X);
    ccc, eee := JJJ(ccc, ddd, eee, aaa, bbb, X[0], 11, 3, s0, X);
    bbb, ddd := JJJ(bbb, ccc, ddd, eee, aaa, X[9], 13, 4, s0, X);
    aaa, ccc := JJJ(aaa, bbb, ccc, ddd, eee, X[2], 15, 5, s0, X);
    eee, bbb := JJJ(eee, aaa, bbb, ccc, ddd, X[11], 15, 6, s0, X);
    ddd, aaa := JJJ(ddd, eee, aaa, bbb, ccc, X[4], 5, 7, s0, X);
    ccc, eee := JJJ(ccc, ddd, eee, aaa, bbb, X[13], 7, 8, s0, X);
    bbb, ddd := JJJ(bbb, ccc, ddd, eee, aaa, X[6], 7, 9, s0, X);
    aaa, ccc := JJJ(aaa, bbb, ccc, ddd, eee, X[15], 8, 10, s0, X);
    eee, bbb := JJJ(eee, aaa, bbb, ccc, ddd, X[8], 11, 11, s0, X);
    ddd, aaa := JJJ(ddd, eee, aaa, bbb, ccc, X[1], 14, 12, s0, X);
    ccc, eee := JJJ(ccc, ddd, eee, aaa, bbb, X[10], 14, 13, s0, X);
    bbb, ddd := JJJ(bbb, ccc, ddd, eee, aaa, X[3], 12, 14, s0, X);
    aaa, ccc := JJJ(aaa, bbb, ccc, ddd, eee, X[12], 6, 15, s0, X);
    r' := Regs5(aaa, bbb, ccc, ddd, eee);
  }

  method RightRound2(r: State, X: seq<bv32>, ghost s0: State) returns (r': State)
    requires |X| == 16 && Reached(Right, s0, X, 16, Regs5(r.e, r.a, r.b, r.c, r.d))
    ensures Reached(Right, s0, X, 32, Regs5(r'.d, r'.e, r'.a, r'.b, r'.c))
  {
    hide Reached;
    var aaa, bbb, ccc, ddd, eee := r.a, r.b, r.c, r.d, r.e;
    eee, bbb := III(eee, aaa, bbb, ccc, ddd, X[6], 9, 16, s0, X);
    ddd, aaa := III(ddd, eee, aaa, bbb, ccc, X[11], 13, 17, s0, X);
    ccc, eee := III(ccc, ddd, eee, aaa, bbb, X[3], 15, 18, s0, X);
    bbb, ddd := III(bbb, ccc, ddd, eee, aaa, X[7], 7, 19, s0, X);
    aaa, ccc := III(aaa, bbb, ccc, ddd, eee, X[0], 12, 20, s0, X);
    eee, bbb := III(eee, aaa, bbb, ccc, ddd, X[13], 8, 21, s0, X);
    ddd, aaa := III(ddd, eee, aaa, bbb, ccc, X[5], 9, 22, s0, X);
    ccc, eee := III(ccc, ddd, eee, aaa, bbb, X[10], 11, 23, s0, X);
    bbb, ddd := III(bbb, ccc, ddd, eee, aaa, X[14], 7, 24, s0, X);
    aaa, ccc := III(aaa, bbb, ccc, ddd, eee, X[15], 7, 25, s0, X);
    eee, bbb := III(eee, aaa, bbb, ccc, ddd, X[8], 12, 26, s0, X);
    ddd, aaa := III(ddd, eee, aaa, bbb, ccc, X[12], 7, 27, s0, X);
    ccc, eee := III(ccc, ddd, eee, aaa, bbb, X[4], 6, 28, s0, X);
    bbb, ddd := III(bbb, ccc, ddd, eee, aaa, X[9], 15, 29, s0, X);
    aaa, ccc := III(aaa, bbb, ccc, ddd, eee, X[1], 13, 30, s0, X);
    eee, bbb := III(eee, aaa, bbb, ccc, ddd, X[2], 11, 31, s0, X);
    r' := Regs5(aaa, bbb, ccc, ddd, eee);
  }

  method RightRound3First(r: State, X: seq<bv32>, ghost s0: State) returns (r': State)
    requires |X| == 16 && Reached(Right, s0, X, 32, Regs5(r.d, r.e, r.a, r.b, r.c))
    ensures Reached(Right, s0, X, 40, Regs5(r'.a, r'.b, r'.c, r'.d, r'.e))
  {
    hide Reached;
    var aaa, bbb, ccc, ddd, eee := r.a, r.b, r.c, r.d, r.e;
    ddd, aaa := HHH(ddd, eee, aaa, bbb, ccc, X[15], 9, 32, s0, X);
    ccc, eee := HHH(ccc, ddd, eee, aaa, bbb, X[5], 7, 33, s0, X);
    bbb, ddd := HHH(bbb, ccc, ddd, eee, aaa, X[1], 15, 34, s0, X);
    aaa, ccc := HHH(aaa, bbb, ccc, ddd, eee, X[3], 11, 35, s0, X);
    eee, bbb := HHH(eee, aaa, bbb, ccc, ddd, X[7], 8, 36, s0, X);
    ddd, aaa := HHH(ddd, eee, aaa, bbb, ccc, X[14], 6, 37, s0, X);
    ccc, eee := HHH(ccc, ddd, eee, aaa, bbb, X[6], 6, 38, s0, X);
    bbb, ddd := HHH(bbb, ccc, ddd, eee, aaa, X[9], 14, 39, s0, X);
    r' := Regs5(aaa, bbb, ccc, ddd, eee);
  }

  method RightRound3Second(r: State, X: seq<bv32>, ghost s0: State) returns (r': State)
    requires |X| == 16 && Reached(Right, s0, X, 40, Regs5(r.a, r.b, r.c, r.d, r.e))
    ensures Reached(Right, s0, X, 48, Regs5(r'.c, r'.d, r'.e, r'.a, r'.b))
  {
    hide Reached;
    var aaa, bbb, ccc, ddd, eee := r.a, r.b, r.c, r.d, r.e;
    aaa, ccc := HHH(aaa, bbb, ccc, ddd, eee, X[11], 12, 40, s0, X);
    eee, bbb := HHH(eee, aaa, bbb, ccc, ddd, X[8], 13, 41, s0, X);
    ddd, aaa := HHH(ddd, eee, aaa, bbb, ccc, X[12], 5, 42, s0, X);
    ccc, eee := HHH(ccc, ddd, eee, aaa, bbb, X[2], 14, 43, s0, X);
    bbb, ddd := HHH(bbb, ccc, ddd, eee, aaa, X[10], 13, 44, s0, X);
    aaa, ccc := HHH(aaa, bbb, ccc, ddd, eee, X[0], 13, 45, s0, X);
    eee, bbb := HHH(eee, aaa, bbb, ccc, ddd, X[4], 7, 46, s0, X);
    ddd, aaa := HHH(ddd, eee, aaa, bbb, ccc, X[13], 5, 47, s0, X);
    r' := Regs5(aaa, bbb, ccc, ddd, eee);
  }

  /** The third round of the right line, as two halves of eight steps. */
  method RightRound3(r: State, X: seq<bv32>, ghost s0: State) returns (r': State)
    requires |X| == 16 && Reached(Right, s0, X, 32, Regs5(r.d, r.e, r.a, r.b, r.c))
    ensures Reached(Right, s0, X, 48, Regs5(r'.c, r'.d, r'.e, r'.a, r'.b))
  {
    hide Reached;
    r' := RightRound3First(r, X, s0);
    r' := RightRound3Second(r', X, s0);
  }

  method RightRound4(r: State, X: seq<bv32>, ghost s0: State) returns (r': State)
    requires |X| == 16 && Reached(Right, s0, X, 48, Regs5(r.c, r.d, r.e, r.a, r.b))
    ensures Reached(Right, s0, X, 64, Regs5(r'.b, r'.c, r'.d, r'.e, r'.a))
  {
    hide Reached;
    var aaa, bbb, ccc, ddd, eee := r.a, r.b, r.c, r.d, r.e;
    ccc, eee := GGG(ccc, ddd, eee, aaa, bbb, X[8], 15, 48, s0, X);
    bbb, ddd := GGG(bbb, ccc, ddd, eee, aaa, X[6], 5, 49, s0, X);
    aaa, ccc := GGG(aaa, bbb, ccc, ddd, eee, X[4], 8, 50, s0, X);
    eee, bbb := GGG(eee, aaa, bbb, ccc, ddd, X[1], 11, 51, s0, X);
    ddd, aaa := GGG(ddd, eee, aaa, bbb, ccc, X[3], 14, 52, s0, X);
    ccc, eee := GGG(ccc, ddd, eee, aaa, bbb, X[11], 14, 53, s0, X);
    bbb, ddd := GGG(bbb, ccc, ddd, eee, aaa, X[15], 6, 54, s0, X);
    aaa, ccc := GGG(aaa, bbb, ccc, ddd, eee, X[0], 14, 55, s0, X);
    eee, bbb := GGG(eee, aaa, bbb, ccc, ddd, X[5], 6, 56, s0, X);
    ddd, aaa := GGG(ddd, eee, aaa, bbb, ccc, X[12], 9, 57, s0, X);
    ccc, eee := GGG(ccc, ddd, eee, aaa, bbb, X[2], 12, 58, s0, X);
    bbb, ddd := GGG(bbb, ccc, ddd, eee, aaa, X[13], 9, 59, s0, X);
    aaa, ccc := GGG(aaa, bbb, ccc, ddd, eee, X[9], 12, 60, s0, X);
    eee, bbb := GGG(eee, aaa, bbb, ccc, ddd, X[7], 5, 61, s0, X);
    ddd, aaa := GGG(ddd, eee, aaa, bbb, ccc, X[10], 15, 62, s0, X);
    ccc, eee := GGG(ccc, ddd, eee, aaa, bbb, X[14], 8, 63, s0, X);
    r' := Regs5(aaa, bbb, ccc, ddd, eee);
  }

  method RightRound5(r: State, X: seq<bv32>, ghost s0: State) returns (r': State)
    requires |X| == 16 && Reached(Right, s0, X, 64, Regs5(r.b, r.c, r.d, r.e, r.a))
    ensures Reached(Right, s0, X, 80, Regs5(r'.a, r'.b, r'.c, r'.d, r'.e))
  {
    hide Reached;
    var aaa, bbb, ccc, ddd, eee := r.a, r.b, r.c, r.d, r.e;
    bbb, ddd := FFF(bbb, ccc, ddd, eee, aaa, X[12], 8, 64, s0, X);
    aaa, ccc := FFF(aaa, bbb, ccc, ddd, eee, X[15], 5, 65, s0, X);
    eee, bbb := FFF(eee, aaa, bbb, ccc, ddd, X[10], 12, 66, s0, X);
    ddd, aaa := FFF(ddd, eee, aaa, bbb, ccc, X[4], 9, 67, s0, X);
    ccc, eee := FFF(ccc, ddd, eee, aaa, bbb, X[1], 12, 68, s0, X);
    bbb, ddd := FFF(bbb, ccc, ddd, eee, aaa, X[5], 5, 69, s0, X);
    aaa, ccc := FFF(aaa, bbb, ccc, ddd, eee, X[8], 14, 70, s0, X);
    eee, bbb := FFF(eee, aaa, bbb, ccc, ddd, X[7], 6, 71, s0, X);
    ddd, aaa := FFF(ddd, eee, aaa, bbb, ccc, X[6], 8, 72, s0, X);
    ccc, eee := FFF(ccc, ddd, eee, aaa, bbb, X[2], 13, 73, s0, X);
    bbb, ddd := FFF(bbb, ccc, ddd, eee, aaa, X[13], 6, 74, s0, X);
    aaa, ccc := FFF(aaa, bbb, ccc, ddd, eee, X[14], 5, 75, s0, X);
    eee, bbb := FFF(eee, aaa, bbb, ccc, ddd, X[0], 15, 76, s0, X);
    ddd, aaa := FFF(ddd, eee, aaa, bbb, ccc, X[3], 13, 77, s0, X);
    ccc, eee := FFF(ccc, ddd, eee, aaa, bbb, X[9], 11, 78, s0, X);
    bbb, ddd := FFF(bbb, ccc, ddd, eee, aaa, X[11], 11, 79, s0, X);
    r' := Regs5(aaa, bbb, ccc, ddd, eee);
  }

  /** Loads the sixteen block words little-endian. */
  method LoadBlock(buf: seq<byte>) returns (X: array<bv32>)
    requires |buf| == 64
    ensures fresh(X) && X.Length == 16 && X[..] == Words32L(buf)
  {
    hide Load32L;
    X := new bv32[16];
    for i := 0 to 16
      invariant X[..i] == Words32L(buf)[..i]
    {
      X[i] := Load32L(buf[4 * i..4 * i + 4]);
    }
    assert X[..] == X[..16];
  }

  /** The registers held by the five words of md->rmd160.state. */
  ghost function View(state: array<bv32>): State
    requires state.Length == 5
    reads state
  {
    Regs5(state[0], state[1], state[2], state[3], state[4])
  }

  method LeftLine(h: State, X: seq<bv32>) returns (r: State)
    requires |X| == 16
    ensures r == Fold(Step, h, Inputs(Left, X))
  {
    hide Step, WordIndex, Rotation, Constant;
    r := LeftRound1(h, X, h);
    r := LeftRound2(r, X, h);
    r := LeftRound3(r, X, h);
    r := LeftRound4(r, X, h);
    r := LeftRound5(r, X, h);
    assert Inputs(Left, X)[..80] == Inputs(Left, X);
  }

  method RightLine(h: State, X: seq<bv32>) returns (r: State)
    requires |X| == 16
    ensures r == Fold(Step, h, Inputs(Right, X))
  {
    hide Step, WordIndex, Rotation, Constant;
    r := RightRound1(h, X, h);
    r := RightRound2(r, X, h);
    r := RightRound3(r, X, h);
    r := RightRound4(r, X, h);
    r := RightRound5(r, X, h);
    assert Inputs(Right, X)[..80] == Inputs(Right, X);
  }

  /** rmd160_compress: the left line, the right line, and the combination in the code's order of
      assignments. */
  method CompressUnrolled(state: array<bv32>, buf: seq<byte>)
    requires state.Length == 5 && |buf| == 64
    modifies state
    ensures View(state) == Compress(old(View(state)), buf)
  {
    hide Step, Sum3, Fold, Inputs;
    var X := LoadBlock(buf);
    var h := Regs5(state[0], state[1], state[2], state[3], state[4]);
    var l := LeftLine(h, X[..]);
    var r := RightLine(h, X[..]);
    var ddd := Sum3(state[1], l.c, r.d);
    state[1] := Sum3(state[2], l.d, r.e);
    state[2] := Sum3(state[3], l.e, r.a);
    state[3] := Sum3(state[4], l.a, r.b);
    state[4] := Sum3(state[0], l.b, r.c);
    state[0] := ddd;
  }

  lemma StepInverse()
    ensures Inverse(Step, Unstep)
  {
    hide Mix;
    forall s, m ensures Unstep(Step(s, m), m) == s && Step(Unstep(s, m), m) == s {
      var sum := Sum4(Mix(m.f, s.b, s.c, s.d), m.x, m.k, s.a);
      Sum4Unsum4(Mix(m.f, s.b, s.c, s.d), m.x, m.k, s.a);
      RorRol(sum, m.n);
      AddSub(Rol(sum, m.n), s.e);
      RorRol(s.c, 10);
      var dif := Sub(s.b, s.a);
      Unsum4Sum4(Mix(m.f, s.c, Ror(s.d, 10), s.e), m.x, m.k, Ror(dif, m.n));
      RolRor(dif, m.n);
      SubAdd(s.b, s.a);
      RolRor(s.d, 10);
      hide Rol, Ror, Add, Sub, Sum4, Unsum4;
    }
  }

  /** For a fixed block each line is a bijection on the chaining state. */
  lemma LineBijection(line: Line, s: State, block: seq<byte>)
    requires |block| == 64
    ensures var ins := Inputs(line, Words32L(block));
            Unfold(Unstep, Run(line, s, block), ins) == s && Fold(Step, Unfold(Unstep, s, ins), ins) == s
  {
    StepInverse();
    FoldBijection(Step, Unstep, s, Inputs(line, Words32L(block)));
  }
}
