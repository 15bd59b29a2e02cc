/** SHA-1 compression: the rolled rounds, the rounds unrolled five at a time, and the definition
    in section 6.1.2 of FIPS 180-4. */
module Sha1 {
  import opened Words
  import opened Registers
  import opened Folds
  import opened Schedules

  type State = Regs5<bv32>

  // The logical functions as the code writes them; F3 is F1.

  function F0(x: bv32, y: bv32, z: bv32): bv32 { z ^ (x & (y ^ z)) }

  function F1(x: bv32, y: bv32, z: bv32): bv32 { x ^ y ^ z }

  function F2(x: bv32, y: bv32, z: bv32): bv32 { (x & y) | (z & (x | y)) }

  function F3(x: bv32, y: bv32, z: bv32): bv32 { x ^ y ^ z }

  // The functions and constants of sections 4.1.1 and 4.2.1 of FIPS 180-4.

  function Ch(x: bv32, y: bv32, z: bv32): bv32 { (x & y) ^ (!x & z) }

  function Parity(x: bv32, y: bv32, z: bv32): bv32 { x ^ y ^ z }

  function Maj(x: bv32, y: bv32, z: bv32): bv32 { (x & y) ^ (x & z) ^ (y & z) }

  function StdF(t: nat, x: bv32, y: bv32, z: bv32): bv32 {
    if t < 20 then Ch(x, y, z)
    else if t < 40 then Parity(x, y, z)
    else if t < 60 then Maj(x, y, z)
    else Parity(x, y, z)
  }

  function K(t: nat): bv32 {
    if t < 20 then 0x5a827999 else if t < 40 then 0x6ed9eba1 else if t < 60 then 0x8f1bbcdc else 0xca62c1d6
  }

  lemma F0IsCh(x: bv32, y: bv32, z: bv32)
    ensures F0(x, y, z) == Ch(x, y, z)
  {
    assert z ^ (x & (y ^ z)) == (x & y) ^ (!x & z);
  }

  lemma F2IsMaj(x: bv32, y: bv32, z: bv32)
    ensures F2(x, y, z) == Maj(x, y, z)
  {
    assert (x & y) | (z & (x | y)) == (x & y) ^ (x & z) ^ (y & z);
  }

  /** What one round consumes: its number and its schedule word. */
  datatype Input = Input(t: nat, w: bv32)

  /** One round of section 6.1.2, step 3, of FIPS 180-4. */
  function Step(s: State, m: Input): State {
    Regs5(Sum5(s.e, Rol(s.a, 5), StdF(m.t, s.b, s.c, s.d), K(m.t), m.w), s.a, Rol(s.b, 30), s.c, s.d)
  }

  /** Undoes one round. */
  function Unstep(s: State, m: Input): State {
    var b := Ror(s.c, 30);
    Regs5(s.b, b, s.d, s.e, Unsum5(s.a, Rol(s.b, 5), StdF(m.t, b, s.d, s.e), K(m.t), m.w))
  }

  /** The schedule recurrence of section 6.1.2, step 1, over the sixteen previous words. */
  function Next(win: seq<bv32>): bv32 {
    if |win| != 16 then 0 else Rol(Xor4(win[13], win[8], win[2], win[0]), 1)
  }

  /** Undoes the schedule recurrence: the word before fifteen words, from the word after them. */
  function Previous(win: seq<bv32>, next: bv32): bv32 {
    if |win| != 15 then 0 else Xor4(win[12], win[7], win[1], Ror(next, 1))
  }

  function Inputs(ws: seq<bv32>): (ins: seq<Input>)
    requires |ws| == 80
    ensures |ins| == 80
  {
    seq(80, i requires 0 <= i < 80 => Input(i, ws[i]))
  }

  function Rounds(s: State, block: seq<byte>): State
    requires |block| == 64
  {
    Fold(Step, s, Inputs(Expand(Next, Words32H(block), 80)))
  }

  /** The compression function: the rounds, then the feedback addition. */
  function Compress(s: State, block: seq<byte>): State
    requires |block| == 64
  {
    var r := Rounds(s, block);
    Regs5(Add(s.a, r.a), Add(s.b, r.b), Add(s.c, r.c), Add(s.d, r.d), Add(s.e, r.e))
  }

  /** The registers r are where the standard is after i rounds from s0 with the schedule ws. */
  ghost predicate Reached(s0: State, ws: seq<bv32>, i: nat, r: State) {
    |ws| == 80 && i <= 80 && r == Fold(Step, s0, Inputs(ws)[..i])
  }

  lemma NextReached(s0: State, ws: seq<bv32>, i: nat, s: State)
    requires i < 80 && Reached(s0, ws, i, s)
    ensures var e := Sum5(s.e, Rol(s.a, 5), StdF(i, s.b, s.c, s.d), K(i), ws[i]);
            Reached(s0, ws, i + 1, Regs5(e, s.a, Rol(s.b, 30), s.c, s.d))
  {
    hide Rol, StdF, K, Sum5;
    FoldNext(Step, s0, Inputs(ws), i);
  }

  // The four macros: each writes e and b, and renaming the registers one place round is then one
  // round of the standard.

  method FF0(a: bv32, b: bv32, c: bv32, d: bv32, e: bv32, W: array<bv32>, i: nat, ghost s0: State)
      returns (e': bv32, b': bv32)
    requires W.Length == 80 && 0 <= i < 20 && Reached(s0, W[..], i, Regs5(a, b, c, d, e))
    ensures Reached(s0, W[..], i + 1, Regs5(e', a, b', c, d))
  {
    NextReached(s0, W[..], i, Regs5(a, b, c, d, e));
    F0IsCh(b, c, d);
    hide Reached, Rol, Sum5, F0, F1, F2, F3, Ch, Parity, Maj;
    e' := Sum5(e, Rol(a, 5), F0(b, c, d), 0x5a827999, W[i]);
    b' := Rol(b, 30);
  }

  method FF1(a: bv32, b: bv32, c: bv32, d: bv32, e: bv32, W: array<bv32>, i: nat, ghost s0: State)
      returns (e': bv32, b': bv32)
    requires W.Length == 80 && 20 <= i < 40 && Reached(s0, W[..], i, Regs5(a, b, c, d, e))
    ensures Reached(s0, W[..], i + 1, Regs5(e', a, b', c, d))
  {
    NextReached(s0, W[..], i, Regs5(a, b, c, d, e));
    assert F1(b, c, d) == Parity(b, c, d);
    hide Reached, Rol, Sum5, F0, F1, F2, F3, Ch, Parity, Maj;
    e' := Sum5(e, Rol(a, 5), F1(b, c, d), 0x6ed9eba1, W[i]);
    b' := Rol(b, 30);
  }

  method FF2(a: bv32, b: bv32, c: bv32, d: bv32, e: bv32, W: array<bv32>, i: nat, ghost s0: State)
      returns (e': bv32, b': bv32)
    requires W.Length == 80 && 40 <= i < 60 && Reached(s0, W[..], i, Regs5(a, b, c, d, e))
    ensures Reached(s0, W[..], i + 1, Regs5(e', a, b', c, d))
  {
    NextReached(s0, W[..], i, Regs5(a, b, c, d, e));
    F2IsMaj(b, c, d);
    hide Reached, Rol, Sum5, F0, F1, F2, F3, Ch, Parity, Maj;
    e' := Sum5(e, Rol(a, 5), F2(b, c, d), 0x8f1bbcdc, W[i]);
    b' := Rol(b, 30);
  }

  method FF3(a: bv32, b: bv32, c: bv32, d: bv32, e: bv32, W: array<bv32>, i: nat, ghost s0: State)
      returns (e': bv32, b': bv32)
    requires W.Length == 80 && 60 <= i < 80 && Reached(s0, W[..], i, Regs5(a, b, c, d, e))
    ensures Reached(s0, W[..], i + 1, Regs5(e', a, b', c, d))
  {
    NextReached(s0, W[..], i, Regs5(a, b, c, d, e));
    assert F3(b, c, d) == Parity(b, c, d);
    hide Reached, Rol, Sum5, F0, F1, F2, F3, Ch, Parity, Maj;
    e' := Sum5(e, Rol(a, 5), F3(b, c, d), 0xca62c1d6, W[i]);
    b' := Rol(b, 30);
  }

  /** The unrolled rounds: twenty rounds with each function, five to an iteration. */
  method UnrolledRounds(s0: State, W: array<bv32>) returns (r: State)
    requires W.Length == 80 && Reached(s0, W[..], 0, s0)
    ensures Reached(s0, W[..], 80, r)
  {
    hide Reached;
    var a, b, c, d, e := s0.a, s0.b, s0.c, s0.d, s0.e;
    var i := 0;
    while i < 20
      invariant 0 <= i <= 20 && i % 5 == 0
      invariant Reached(s0, W[..], i, Regs5(a, b, c, d, e))
    {
      e, b := FF0(a, b, c, d, e, W, i + 0, s0);
      d, a := FF0(e, a, b, c, d, W, i + 1, s0);
      c, e := FF0(d, e, a, b, c, W, i + 2, s0);
      b, d := FF0(c, d, e, a, b, W, i + 3, s0);
      a, c := FF0(b, c, d, e, a, W, i + 4, s0);
      i := i + 5;
    }
    while i < 40
      invariant 20 <= i <= 40 && i % 5 == 0
      invariant Reached(s0, W[..], i, Regs5(a, b, c, d, e))
    {
      e, b := FF1(a, b, c, d, e, W, i + 0, s0);
      d, a := FF1(e, a, b, c, d, W, i + 1, s0);
      c, e := FF1(d, e, a, b, c, W, i + 2, s0);
      b, d := FF1(c, d, e, a, b, W, i + 3, s0);
      a, c := FF1(b, c, d, e, a, W, i + 4, s0);
      i := i + 5;
    }
    while i < 60
      invariant 40 <= i <= 60 && i % 5 == 0
      invariant Reached(s0, W[..], i, Regs5(a, b, c, d, e))
    {
      e, b := FF2(a, b, c, d, e, W, i + 0, s0);
      d, a := FF2(e, a, b, c, d, W, i + 1, s0);
      c, e := FF2(d, e, a, b, c, W, i + 2, s0);
      b, d := FF2(c, d, e, a, b, W, i + 3, s0);
      a, c := FF2(b, c, d, e, a, W, i + 4, s0);
      i := i + 5;
    }
    while i < 80
      invariant 60 <= i <= 80 && i % 5 == 0
      invariant Reached(s0, W[..], i, Regs5(a, b, c, d, e))
    {
      e, b := FF3(a, b, c, d, e, W, i + 0, s0);
      d, a := FF3(e, a, b, c, d, W, i + 1, s0);
      c, e := FF3(d, e, a, b, c, W, i + 2, s0);
      b, d := FF3(c, d, e, a, b, W, i + 3, s0);
      a, c := FF3(b, c, d, e, a, W, i + 4, s0);
      i := i + 5;
    }
    r := Regs5(a, b, c, d, e);
  }

  /** The rolled rounds (LTC_SMALL_CODE): the arguments stay put and the variables are shifted. */
  method RolledRounds(s0: State, W: array<bv32>) returns (r: State)
    requires W.Length == 80 && Reached(s0, W[..], 0, s0)
    ensures Reached(s0, W[..], 80, r)
  {
    hide Reached;
    var a, b, c, d, e := s0.a, s0.b, s0.c, s0.d, s0.e;
    var t;
    var i := 0;
    while i < 20
      invariant 0 <= i <= 20 && Reached(s0, W[..], i, Regs5(a, b, c, d, e))
    {
      e, b := FF0(a, b, c, d, e, W, i, s0);
      i := i + 1;
      t := e; e := d; d := c; c := b; b := a; a := t;
    }
    while i < 40
      invariant 20 <= i <= 40 && Reached(s0, W[..], i, Regs5(a, b, c, d, e))
    {
      e, b := FF1(a, b, c, d, e, W, i, s0);
      i := i + 1;
      t := e; e := d; d := c; c := b; b := a; a := t;
    }
    while i < 60
      invariant 40 <= i <= 60 && Reached(s0, W[..], i, Regs5(a, b, c, d, e))
    {
      e, b := FF2(a, b, c, d, e, W, i, s0);
      i := i + 1;
      t := e; e := d; d := c; c := b; b := a; a := t;
    }
    while i < 80
      invariant 60 <= i <= 80 && Reached(s0, W[..], i, Regs5(a, b, c, d, e))
    {
      e, b := FF3(a, b, c, d, e, W, i, s0);
      i := i + 1;
      t := e; e := d; d := c; c := b; b := a; a := t;
    }
    r := Regs5(a, b, c, d, e);
  }

  /** Loads the block big-endian and expands it to the 80 words of the schedule. */
  method FillSchedule(buf: seq<byte>) returns (W: array<bv32>)
    requires |buf| == 64
    ensures fresh(W) && W.Length == 80 && W[..] == Expand(Next, Words32H(buf), 80)
  {
    hide Rol, Xor4, Load32H;
    W := new bv32[80];
    for i := 0 to 16
      invariant W[..i] == Words32H(buf)[..i]
    {
      W[i] := Load32H(buf[4 * i..4 * i + 4]);
    }
    for i := 16 to 80
      invariant W[..i] == Expand(Next, Words32H(buf), i)
    {
      hide Next;
      NextWord(W[..i]);
      assert W[..i][i - 16..] == W[i - 16..i];
      W[i] := Rol(Xor4(W[i - 3], W[i - 8], W[i - 14], W[i - 16]), 1);
      assert W[..i + 1] == W[..i] + [W[i]];
    }
    assert W[..] == W[..80];
  }

  lemma NextWord(ws: seq<bv32>)
    requires |ws| >= 16
    ensures var i := |ws|;
            Next(ws[i - 16..]) == Rol(Xor4(ws[i - 3], ws[i - 8], ws[i - 14], ws[i - 16]), 1)
  {
    hide Rol, Xor4;
  }

  /** The registers held by the five words of md->sha1.state. */
  ghost function View(state: array<bv32>): State
    requires state.Length == 5
    reads state
  {
    Regs5(state[0], state[1], state[2], state[3], state[4])
  }

  /** sha1_compress in its unrolled form. */
  method CompressUnrolled(state: array<bv32>, buf: seq<byte>)
    requires state.Length == 5 && |buf| == 64
    modifies state
    ensures View(state) == Compress(old(View(state)), buf)
  {
    hide Step, Add;
    var W := FillSchedule(buf);
    var r := UnrolledRounds(Regs5(state[0], state[1], state[2], state[3], state[4]), W);
    assert Inputs(W[..])[..80] == Inputs(W[..]);
    Store(state, r);
  }

  /** sha1_compress in its rolled form (LTC_SMALL_CODE). */
  method CompressRolled(state: array<bv32>, buf: seq<byte>)
    requires state.Length == 5 && |buf| == 64
    modifies state
    ensures View(state) == Compress(old(View(state)), buf)
  {
    hide Step, Add;
    var W := FillSchedule(buf);
    var r := RolledRounds(Regs5(state[0], state[1], state[2], state[3], state[4]), W);
    assert Inputs(W[..])[..80] == Inputs(W[..]);
    Store(state, r);
  }

  method Store(state: array<bv32>, r: State)
    requires state.Length == 5
    modifies state
    ensures state[0] == Add(old(state[0]), r.a) && state[1] == Add(old(state[1]), r.b)
    ensures state[2] == Add(old(state[2]), r.c) && state[3] == Add(old(state[3]), r.d)
    ensures state[4] == Add(old(state[4]), r.e)
  {
    hide Add;
    state[0] := Add(state[0], r.a);
    state[1] := Add(state[1], r.b);
    state[2] := Add(state[2], r.c);
    state[3] := Add(state[3], r.d);
    state[4] := Add(state[4], r.e);
  }

  lemma StepInverse()
    ensures Inverse(Step, Unstep)
  {
    hide StdF, K, Sum5, Unsum5;
    forall s, m ensures Unstep(Step(s, m), m) == s && Step(Unstep(s, m), m) == s {
      RorRol(s.b, 30);
      RolRor(s.c, 30);
      Sum5Unsum5(s.e, Rol(s.a, 5), StdF(m.t, s.b, s.c, s.d), K(m.t), m.w);
      Unsum5Sum5(s.a, Rol(s.b, 5), StdF(m.t, Ror(s.c, 30), s.d, s.e), K(m.t), m.w);
      hide Rol, Ror;
    }
  }

  /** For a fixed block the 80 rounds are a bijection on the chaining state. */
  lemma RoundsBijection(s: State, block: seq<byte>)
    requires |block| == 64
    ensures var ins := Inputs(Expand(Next, Words32H(block), 80));
            Unfold(Unstep, Rounds(s, block), ins) == s && Fold(Step, Unfold(Unstep, s, ins), ins) == s
  {
    StepInverse();
    FoldBijection(Step, Unstep, s, Inputs(Expand(Next, Words32H(block), 80)));
  }

  lemma ScheduleReversible()
    ensures Reversible(Next, Previous)
  {
    forall win: seq<bv32> | |win| == 16 ensures Previous(win[1..], Next(win)) == win[0] {
      RorRol(Xor4(win[13], win[8], win[2], win[0]), 1);
      Xor4Xor4(win[13], win[8], win[2], win[0]);
      hide Rol, Ror, Xor4;
    }
  }

  /** Any sixteen consecutive words of the schedule give back the whole schedule and the block's bytes. */
  lemma BlockFromWindow(block: seq<byte>, t: nat)
    requires |block| == 64 && t <= 64
    ensures var ws := Expand(Next, Words32H(block), 80);
            var start := Rewind(Previous, ws[t..t + 16], t);
            Expand(Next, start, 80) == ws && Bytes32H(start) == block
  {
    var ws := Expand(Next, Words32H(block), 80);
    ScheduleReversible();
    ExpandFollows(Next, Words32H(block), 80);
    WindowDetermines(Next, Previous, ws, t);
    RewindWindow(Next, Previous, ws, t);
    BytesOfWords32H(block);
  }
}
