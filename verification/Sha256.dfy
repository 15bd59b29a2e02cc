/** SHA-256 compression: the rolled and the unrolled rounds of the code and the definition in
    section 6.2.2 of FIPS 180-4. */
module Sha256 {
  import opened Words
  import opened Registers
  import opened Folds
  import opened Schedules
  import opened Tables

  type State = Regs8<bv32>

  /** The round constants (section 4.2.2 of FIPS 180-4). */
  function K(i: nat): bv32 {
    if i < 16 then
      Pick16(i,
             0x428a2f98, 0x71374491, 0xb5c0fbcf, 0xe9b5dba5, 0x3956c25b, 0x59f111f1, 0x923f82a4, 0xab1c5ed5,
             0xd807aa98, 0x12835b01, 0x243185be, 0x550c7dc3, 0x72be5d74, 0x80deb1fe, 0x9bdc06a7, 0xc19bf174)
    else if i < 32 then
      Pick16(i - 16,
             0xe49b69c1, 0xefbe4786, 0x0fc19dc6, 0x240ca1cc, 0x2de92c6f, 0x4a7484aa, 0x5cb0a9dc, 0x76f988da,
             0x983e5152, 0xa831c66d, 0xb00327c8, 0xbf597fc7, 0xc6e00bf3, 0xd5a79147, 0x06ca6351, 0x14292967)
    else if i < 48 then
      Pick16(i - 32,
             0x27b70a85, 0x2e1b2138, 0x4d2c6dfc, 0x53380d13, 0x650a7354, 0x766a0abb, 0x81c2c92e, 0x92722c85,
             0xa2bfe8a1, 0xa81a664b, 0xc24b8b70, 0xc76c51a3, 0xd192e819, 0xd6990624, 0xf40e3585, 0x106aa070)
    else
      Pick16(i - 48,
             0x19a4c116, 0x1e376c08, 0x2748774c, 0x34b0bcb5, 0x391c0cb3, 0x4ed8aa4a, 0x5b9cca4f, 0x682e6ff3,
             0x748f82ee, 0x78a5636f, 0x84c87814, 0x8cc70208, 0x90befffa, 0xa4506ceb, 0xbef9a3f7, 0xc67178f2)
  }

  // The logical functions as the code writes them.

  function Ch(x: bv32, y: bv32, z: bv32): bv32 { z ^ (x & (y ^ z)) }

  function Maj(x: bv32, y: bv32, z: bv32): bv32 { ((x | y) & z) | (x & y) }

  function BigSigma0(x: bv32): bv32 { Ror(x, 2) ^ Ror(x, 13) ^ Ror(x, 22) }

  function BigSigma1(x: bv32): bv32 { Ror(x, 6) ^ Ror(x, 11) ^ Ror(x, 25) }

  function Gamma0(x: bv32): bv32 { Ror(x, 7) ^ Ror(x, 18) ^ (x >> 3) }

  function Gamma1(x: bv32): bv32 { Ror(x, 17) ^ Ror(x, 19) ^ (x >> 10) }

  // The logical functions of section 4.1.2 of FIPS 180-4.

  function StdCh(x: bv32, y: bv32, z: bv32): bv32 { (x & y) ^ (!x & z) }

  function StdMaj(x: bv32, y: bv32, z: bv32): bv32 { (x & y) ^ (x & z) ^ (y & z) }

  lemma ChIsStandard(x: bv32, y: bv32, z: bv32)
    ensures Ch(x, y, z) == StdCh(x, y, z)
  {
    assert z ^ (x & (y ^ z)) == (x & y) ^ (!x & z);
  }

  lemma MajIsStandard(x: bv32, y: bv32, z: bv32)
    ensures Maj(x, y, z) == StdMaj(x, y, z)
  {
    assert ((x | y) & z) | (x & y) == (x & y) ^ (x & z) ^ (y & z);
  }

  /** What one round consumes. */
  datatype Input = Input(k: bv32, w: bv32)

  /** One round of section 6.2.2, step 3, of FIPS 180-4. */
  function Step(s: State, m: Input): State {
    var t1 := Sum5(s.h, BigSigma1(s.e), StdCh(s.e, s.f, s.g), m.k, m.w);
    var t2 := Add(BigSigma0(s.a), StdMaj(s.a, s.b, s.c));
    Regs8(Add(t1, t2), s.a, s.b, s.c, Add(s.d, t1), s.e, s.f, s.g)
  }

  /** The schedule recurrence of section 6.2.2, step 1, over the sixteen previous words. */
  function Next(win: seq<bv32>): bv32 {
    if |win| != 16 then 0 else Sum4(Gamma1(win[14]), win[9], Gamma0(win[1]), win[0])
  }

  /** Undoes one round. */
  function Unstep(s: State, m: Input): State {
    var t1 := Sub(s.a, Add(BigSigma0(s.b), StdMaj(s.b, s.c, s.d)));
    Regs8(s.b, s.c, s.d, Sub(s.e, t1), s.f, s.g, s.h,
          Unsum5(t1, BigSigma1(s.f), StdCh(s.f, s.g, s.h), m.k, m.w))
  }

  /** Undoes the schedule recurrence: the word before fifteen words, from the word after them. */
  function Previous(win: seq<bv32>, next: bv32): bv32 {
    if |win| != 15 then 0 else Unsum4(next, Gamma1(win[13]), win[8], Gamma0(win[0]))
  }

  function Inputs(ws: seq<bv32>): (ins: seq<Input>)
    requires |ws| == 64
    ensures |ins| == 64
  {
    seq(64, i requires 0 <= i < 64 => Input(K(i), ws[i]))
  }

  function Rounds(s: State, block: seq<byte>): State
    requires |block| == 64
  {
    Fold(Step, s, Inputs(Expand(Next, Words32H(block), 64)))
  }

  function AddFeedback(s: State, r: State): State {
    Regs8(Add(s.a, r.a), Add(s.b, r.b), Add(s.c, r.c), Add(s.d, r.d),
          Add(s.e, r.e), Add(s.f, r.f), Add(s.g, r.g), Add(s.h, r.h))
  }

  /** The compression function: the rounds, then the feedback addition. */
  function Compress(s: State, block: seq<byte>): State
    requires |block| == 64
  {
    AddFeedback(s, Rounds(s, block))
  }

  /** The registers r are where the standard is after i rounds from s0 with the schedule ws. */
  ghost predicate Reached(s0: State, ws: seq<bv32>, i: nat, r: State) {
    |ws| == 64 && i <= 64 && r == Fold(Step, s0, Inputs(ws)[..i])
  }

  // The two temporaries of the RND macro.

  function T0(e: bv32, f: bv32, g: bv32, h: bv32, ki: bv32, wi: bv32): bv32 {
    Sum5(h, BigSigma1(e), Ch(e, f, g), ki, wi)
  }

  function T1(a: bv32, b: bv32, c: bv32): bv32 {
    Add(BigSigma0(a), Maj(a, b, c))
  }

  lemma MacroIsStep(s: State, m: Input)
    ensures var t0 := T0(s.e, s.f, s.g, s.h, m.k, m.w);
            Step(s, m) == Regs8(Add(t0, T1(s.a, s.b, s.c)), s.a, s.b, s.c, Add(s.d, t0), s.e, s.f, s.g)
  {
    hide BigSigma0, BigSigma1, Ch, Maj, StdCh, StdMaj, Sum5, Add;
    ChIsStandard(s.e, s.f, s.g);
    MajIsStandard(s.a, s.b, s.c);
  }

  lemma NextReached(s0: State, ws: seq<bv32>, i: nat, s: State)
    requires i < 64 && Reached(s0, ws, i, s)
    ensures var t0 := T0(s.e, s.f, s.g, s.h, K(i), ws[i]);
            Reached(s0, ws, i + 1, Regs8(Add(t0, T1(s.a, s.b, s.c)), s.a, s.b, s.c, Add(s.d, t0), s.e, s.f, s.g))
  {
    hide K, T0, T1, Step, Add;
    FoldNext(Step, s0, Inputs(ws), i);
    MacroIsStep(s, Inputs(ws)[i]);
  }

  /** The RND macro: it writes only S[d] and S[h]; renaming the registers one place round is then one
      round of the standard. */
  method Rnd(S: array<bv32>, W: array<bv32>, a: nat, b: nat, c: nat, d: nat, e: nat, f: nat, g: nat, h: nat,
             i: nat, ki: bv32, ghost s0: State)
    requires S.Length == 8 && W.Length == 64 && S != W && Apart(a, b, c, d, e, f, g, h)
    requires i < 64 && ki == K(i)
    requires Reached(s0, W[..], i, Regs8(S[a], S[b], S[c], S[d], S[e], S[f], S[g], S[h]))
    modifies S
    ensures Reached(s0, W[..], i + 1, Regs8(S[h], S[a], S[b], S[c], S[d], S[e], S[f], S[g]))
  {
    hide K, T0, T1, Step, Reached, Add;
    NextReached(s0, W[..], i, Regs8(S[a], S[b], S[c], S[d], S[e], S[f], S[g], S[h]));
    var t0 := T0(S[e], S[f], S[g], S[h], ki, W[i]);
    var t1 := T1(S[a], S[b], S[c]);
    S[d] := Add(S[d], t0);
    S[h] := Add(t0, t1);
  }

  /** The unrolled rounds, sixteen at a time. */
  method Rounds0To15(S: array<bv32>, W: array<bv32>, ghost s0: State)
    requires S.Length == 8 && W.Length == 64 && S != W
    requires Reached(s0, W[..], 0, View8(S))
    modifies S
    ensures Reached(s0, W[..], 16, View8(S))
  {
    hide Reached;
    Rnd(S, W, 0, 1, 2, 3, 4, 5, 6, 7, 0, 0x428a2f98, s0);
    Rnd(S, W, 7, 0, 1, 2, 3, 4, 5, 6, 1, 0x71374491, s0);
    Rnd(S, W, 6, 7, 0, 1, 2, 3, 4, 5, 2, 0xb5c0fbcf, s0);
    Rnd(S, W, 5, 6, 7, 0, 1, 2, 3, 4, 3, 0xe9b5dba5, s0);
    Rnd(S, W, 4, 5, 6, 7, 0, 1, 2, 3, 4, 0x3956c25b, s0);
    Rnd(S, W, 3, 4, 5, 6, 7, 0, 1, 2, 5, 0x59f111f1, s0);
    Rnd(S, W, 2, 3, 4, 5, 6, 7, 0, 1, 6, 0x923f82a4, s0);
    Rnd(S, W, 1, 2, 3, 4, 5, 6, 7, 0, 7, 0xab1c5ed5, s0);
    Rnd(S, W, 0, 1, 2, 3, 4, 5, 6, 7, 8, 0xd807aa98, s0);
    Rnd(S, W, 7, 0, 1, 2, 3, 4, 5, 6, 9, 0x12835b01, s0);
    Rnd(S, W, 6, 7, 0, 1, 2, 3, 4, 5, 10, 0x243185be, s0);
    Rnd(S, W, 5, 6, 7, 0, 1, 2, 3, 4, 11, 0x550c7dc3, s0);
    Rnd(S, W, 4, 5, 6, 7, 0, 1, 2, 3, 12, 0x72be5d74, s0);
    Rnd(S, W, 3, 4, 5, 6, 7, 0, 1, 2, 13, 0x80deb1fe, s0);
    Rnd(S, W, 2, 3, 4, 5, 6, 7, 0, 1, 14, 0x9bdc06a7, s0);
    Rnd(S, W, 1, 2, 3, 4, 5, 6, 7, 0, 15, 0xc19bf174, s0);
  }

  method Rounds16To31(S: array<bv32>, W: array<bv32>, ghost s0: State)
    requires S.Length == 8 && W.Length == 64 && S != W
    requires Reached(s0, W[..], 16, View8(S))
    modifies S
    ensures Reached(s0, W[..], 32, View8(S))
  {
    hide Reached;
    Rnd(S, W, 0, 1, 2, 3, 4, 5, 6, 7, 16, 0xe49b69c1, s0);
    Rnd(S, W, 7, 0, 1, 2, 3, 4, 5, 6, 17, 0xefbe4786, s0);
    Rnd(S, W, 6, 7, 0, 1, 2, 3, 4, 5, 18, 0x0fc19dc6, s0);
    Rnd(S, W, 5, 6, 7, 0, 1, 2, 3, 4, 19, 0x240ca1cc, s0);
    Rnd(S, W, 4, 5, 6, 7, 0, 1, 2, 3, 20, 0x2de92c6f, s0);
    Rnd(S, W, 3, 4, 5, 6, 7, 0, 1, 2, 21, 0x4a7484aa, s0);
    Rnd(S, W, 2, 3, 4, 5, 6, 7, 0, 1, 22, 0x5cb0a9dc, s0);
    Rnd(S, W, 1, 2, 3, 4, 5, 6, 7, 0, 23, 0x76f988da, s0);
    Rnd(S, W, 0, 1, 2, 3, 4, 5, 6, 7, 24, 0x983e5152, s0);
    Rnd(S, W, 7, 0, 1, 2, 3, 4, 5, 6, 25, 0xa831c66d, s0);
    Rnd(S, W, 6, 7, 0, 1, 2, 3, 4, 5, 26, 0xb00327c8, s0);
    Rnd(S, W, 5, 6, 7, 0, 1, 2, 3, 4, 27, 0xbf597fc7, s0);
    Rnd(S, W, 4, 5, 6, 7, 0, 1, 2, 3, 28, 0xc6e00bf3, s0);
    Rnd(S, W, 3, 4, 5, 6, 7, 0, 1, 2, 29, 0xd5a79147, s0);
    Rnd(S, W, 2, 3, 4, 5, 6, 7, 0, 1, 30, 0x06ca6351, s0);
    Rnd(S, W, 1, 2, 3, 4, 5, 6, 7, 0, 31, 0x14292967, s0);
  }

  method Rounds32To47(S: array<bv32>, W: array<bv32>, ghost s0: State)
    requires S.Length == 8 && W.Length == 64 && S != W
    requires Reached(s0, W[..], 32, View8(S))
    modifies S
    ensures Reached(s0, W[..], 48, View8(S))
  {
    hide Reached;
    Rnd(S, W, 0, 1, 2, 3, 4, 5, 6, 7, 32, 0x27b70a85, s0);
    Rnd(S, W, 7, 0, 1, 2, 3, 4, 5, 6, 33, 0x2e1b2138, s0);
    Rnd(S, W, 6, 7, 0, 1, 2, 3, 4, 5, 34, 0x4d2c6dfc, s0);
    Rnd(S, W, 5, 6, 7, 0, 1, 2, 3, 4, 35, 0x53380d13, s0);
    Rnd(S, W, 4, 5, 6, 7, 0, 1, 2, 3, 36, 0x650a7354, s0);
    Rnd(S, W, 3, 4, 5, 6, 7, 0, 1, 2, 37, 0x766a0abb, s0);
    Rnd(S, W, 2, 3, 4, 5, 6, 7, 0, 1, 38, 0x81c2c92e, s0);
    Rnd(S, W, 1, 2, 3, 4, 5, 6, 7, 0, 39, 0x92722c85, s0);
    Rnd(S, W, 0, 1, 2, 3, 4, 5, 6, 7, 40, 0xa2bfe8a1, s0);
    Rnd(S, W, 7, 0, 1, 2, 3, 4, 5, 6, 41, 0xa81a664b, s0);
    Rnd(S, W, 6, 7, 0, 1, 2, 3, 4, 5, 42, 0xc24b8b70, s0);
    Rnd(S, W, 5, 6, 7, 0, 1, 2, 3, 4, 43, 0xc76c51a3, s0);
    Rnd(S, W, 4, 5, 6, 7, 0, 1, 2, 3, 44, 0xd192e819, s0);
    Rnd(S, W, 3, 4, 5, 6, 7, 0, 1, 2, 45, 0xd6990624, s0);
    Rnd(S, W, 2, 3, 4, 5, 6, 7, 0, 1, 46, 0xf40e3585, s0);
    Rnd(S, W, 1, 2, 3, 4, 5, 6, 7, 0, 47, 0x106aa070, s0);
  }

  method Rounds48To63(S: array<bv32>, W: array<bv32>, ghost s0: State)
    requires S.Length == 8 && W.Length == 64 && S != W
    requires Reached(s0, W[..], 48, View8(S))
    modifies S
    ensures Reached(s0, W[..], 64, View8(S))
  {
    hide Reached;
    Rnd(S, W, 0, 1, 2, 3, 4, 5, 6, 7, 48, 0x19a4c116, s0);
    Rnd(S, W, 7, 0, 1, 2, 3, 4, 5, 6, 49, 0x1e376c08, s0);
    Rnd(S, W, 6, 7, 0, 1, 2, 3, 4, 5, 50, 0x2748774c, s0);
    Rnd(S, W, 5, 6, 7, 0, 1, 2, 3, 4, 51, 0x34b0bcb5, s0);
    Rnd(S, W, 4, 5, 6, 7, 0, 1, 2, 3, 52, 0x391c0cb3, s0);
    Rnd(S, W, 3, 4, 5, 6, 7, 0, 1, 2, 53, 0x4ed8aa4a, s0);
    Rnd(S, W, 2, 3, 4, 5, 6, 7, 0, 1, 54, 0x5b9cca4f, s0);
    Rnd(S, W, 1, 2, 3, 4, 5, 6, 7, 0, 55, 0x682e6ff3, s0);
    Rnd(S, W, 0, 1, 2, 3, 4, 5, 6, 7, 56, 0x748f82ee, s0);
    Rnd(S, W, 7, 0, 1, 2, 3, 4, 5, 6, 57, 0x78a5636f, s0);
    Rnd(S, W, 6, 7, 0, 1, 2, 3, 4, 5, 58, 0x84c87814, s0);
    Rnd(S, W, 5, 6, 7, 0, 1, 2, 3, 4, 59, 0x8cc70208, s0);
    Rnd(S, W, 4, 5, 6, 7, 0, 1, 2, 3, 60, 0x90befffa, s0);
    Rnd(S, W, 3, 4, 5, 6, 7, 0, 1, 2, 61, 0xa4506ceb, s0);
    Rnd(S, W, 2, 3, 4, 5, 6, 7, 0, 1, 62, 0xbef9a3f7, s0);
    Rnd(S, W, 1, 2, 3, 4, 5, 6, 7, 0, 63, 0xc67178f2, s0);
  }

  /** The rolled rounds (LTC_SMALL_CODE): the arguments stay put and the contents of S move. */
  method RolledRounds(S: array<bv32>, W: array<bv32>, ghost s0: State)
    requires S.Length == 8 && W.Length == 64 && S != W
    requires Reached(s0, W[..], 0, View8(S))
    modifies S
    ensures Reached(s0, W[..], 64, View8(S))
  {
    hide Reached, K;
    for i := 0 to 64
      invariant Reached(s0, W[..], i, View8(S))
    {
      Rnd(S, W, 0, 1, 2, 3, 4, 5, 6, 7, i, K(i), s0);
      var t := S[7];
      S[7] := S[6];
      S[6] := S[5];
      S[5] := S[4];
      S[4] := S[3];
      S[3] := S[2];
      S[2] := S[1];
      S[1] := S[0];
      S[0] := t;
    }
  }

  /** Loads the block big-endian and expands it to the 64 words of the schedule. */
  method FillSchedule(buf: seq<byte>) returns (W: array<bv32>)
    requires |buf| == 64
    ensures fresh(W) && W.Length == 64 && W[..] == Expand(Next, Words32H(buf), 64)
  {
    hide Gamma0, Gamma1, Sum4, Load32H;
    W := new bv32[64];
    for i := 0 to 16
      invariant W[..i] == Words32H(buf)[..i]
    {
      W[i] := Load32H(buf[4 * i..4 * i + 4]);
    }
    for i := 16 to 64
      invariant W[..i] == Expand(Next, Words32H(buf), i)
    {
      hide Next;
      NextWord(W[..i]);
      assert W[..i][i - 16..] == W[i - 16..i];
      W[i] := Sum4(Gamma1(W[i - 2]), W[i - 7], Gamma0(W[i - 15]), W[i - 16]);
      assert W[..i + 1] == W[..i] + [W[i]];
    }
    assert W[..] == W[..64];
  }

  lemma NextWord(ws: seq<bv32>)
    requires |ws| >= 16
    ensures var i := |ws|;
            Next(ws[i - 16..]) == Sum4(Gamma1(ws[i - 2]), ws[i - 7], Gamma0(ws[i - 15]), ws[i - 16])
  {
    hide Gamma0, Gamma1, Sum4;
  }

  /** sha256_compress in its unrolled form, with the feedback loop at the end. */
  method CompressUnrolled(state: array<bv32>, buf: seq<byte>)
    requires state.Length == 8 && |buf| == 64
    modifies state
    ensures View8(state) == Compress(old(View8(state)), buf)
  {
    var S := CopyState(state);
    var W := FillSchedule(buf);
    ghost var s0 := View8(state);
    Rounds0To15(S, W, s0);
    Rounds16To31(S, W, s0);
    Rounds32To47(S, W, s0);
    Rounds48To63(S, W, s0);
    assert Inputs(W[..])[..64] == Inputs(W[..]);
    Feedback(state, S);
  }

  /** sha256_compress in its rolled form (LTC_SMALL_CODE). */
  method CompressRolled(state: array<bv32>, buf: seq<byte>)
    requires state.Length == 8 && |buf| == 64
    modifies state
    ensures View8(state) == Compress(old(View8(state)), buf)
  {
    var S := CopyState(state);
    var W := FillSchedule(buf);
    RolledRounds(S, W, View8(state));
    assert Inputs(W[..])[..64] == Inputs(W[..]);
    Feedback(state, S);
  }

  method CopyState(state: array<bv32>) returns (S: array<bv32>)
    requires state.Length == 8
    ensures fresh(S) && S.Length == 8 && View8(S) == View8(state)
  {
    S := new bv32[8];
    for i := 0 to 8
      invariant forall j :: 0 <= j < i ==> S[j] == state[j]
    {
      S[i] := state[i];
    }
  }

  method Feedback(state: array<bv32>, S: array<bv32>)
    requires state.Length == S.Length == 8 && state != S
    modifies state
    ensures View8(state) == AddFeedback(old(View8(state)), View8(S))
  {
    hide Add;
    for i := 0 to 8
      invariant forall j :: 0 <= j < i ==> state[j] == Add(old(state[j]), S[j])
      invariant forall j :: i <= j < 8 ==> state[j] == old(state[j])
    {
      state[i] := Add(state[i], S[i]);
    }
  }

  lemma StepInverse()
    ensures Inverse(Step, Unstep)
  {
    hide BigSigma0, BigSigma1, StdCh, StdMaj;
    forall s, m ensures Unstep(Step(s, m), m) == s && Step(Unstep(s, m), m) == s {
      var t2 := Add(BigSigma0(s.a), StdMaj(s.a, s.b, s.c));
      var t1 := Sum5(s.h, BigSigma1(s.e), StdCh(s.e, s.f, s.g), m.k, m.w);
      AddSub(t1, t2);
      AddSub(s.d, t1);
      Sum5Unsum5(s.h, BigSigma1(s.e), StdCh(s.e, s.f, s.g), m.k, m.w);
      var u2 := Add(BigSigma0(s.b), StdMaj(s.b, s.c, s.d));
      var u1 := Sub(s.a, u2);
      SubAdd(s.a, u2);
      SubAdd(s.e, u1);
      Unsum5Sum5(u1, BigSigma1(s.f), StdCh(s.f, s.g, s.h), m.k, m.w);
      hide Add, Sub, Sum5, Unsum5;
    }
  }

  /** For a fixed block the 64 rounds are a bijection on the chaining state. */
  lemma RoundsBijection(s: State, block: seq<byte>)
    requires |block| == 64
    ensures var ins := Inputs(Expand(Next, Words32H(block), 64));
            Unfold(Unstep, Rounds(s, block), ins) == s && Fold(Step, Unfold(Unstep, s, ins), ins) == s
  {
    StepInverse();
    FoldBijection(Step, Unstep, s, Inputs(Expand(Next, Words32H(block), 64)));
  }

  lemma ScheduleReversible()
    ensures Reversible(Next, Previous)
  {
    hide Gamma0, Gamma1;
    forall win: seq<bv32> | |win| == 16 ensures Previous(win[1..], Next(win)) == win[0] {
      Sum4Unsum4(Gamma1(win[14]), win[9], Gamma0(win[1]), win[0]);
      hide Sum4, Unsum4;
    }
  }

  /** Any sixteen consecutive words of the schedule give back the whole schedule and the block's bytes. */
  lemma BlockFromWindow(block: seq<byte>, t: nat)
    requires |block| == 64 && t <= 48
    ensures var ws := Expand(Next, Words32H(block), 64);
            var start := Rewind(Previous, ws[t..t + 16], t);
            Expand(Next, start, 64) == ws && Bytes32H(start) == block
  {
    var ws := Expand(Next, Words32H(block), 64);
    ScheduleReversible();
    ExpandFollows(Next, Words32H(block), 64);
    WindowDetermines(Next, Previous, ws, t);
    RewindWindow(Next, Previous, ws, t);
    BytesOfWords32H(block);
  }
}
