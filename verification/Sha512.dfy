/** SHA-512 compression: the rounds that shift S, the rounds unrolled eight at a time, and the
    definition in section 6.4.2 of FIPS 180-4. SHA-384 uses the same compression. */
module Sha512 {
  import opened Words
  import opened Registers
  import opened Folds
  import opened Schedules
  import opened Tables

  type State = Regs8<bv64>

  /** The round constants (section 4.2.3 of FIPS 180-4). */
  function K(i: nat): bv64 {
    if i < 16 then
      Pick16(i,
             0x428a2f98d728ae22, 0x7137449123ef65cd, 0xb5c0fbcfec4d3b2f, 0xe9b5dba58189dbbc,
             0x3956c25bf348b538, 0x59f111f1b605d019, 0x923f82a4af194f9b, 0xab1c5ed5da6d8118,
             0xd807aa98a3030242, 0x12835b0145706fbe, 0x243185be4ee4b28c, 0x550c7dc3d5ffb4e2,
             0x72be5d74f27b896f, 0x80deb1fe3b1696b1, 0x9bdc06a725c71235, 0xc19bf174cf692694)
    else if i < 32 then
      Pick16(i - 16,
             0xe49b69c19ef14ad2, 0xefbe4786384f25e3, 0x0fc19dc68b8cd5b5, 0x240ca1cc77ac9c65,
             0x2de92c6f592b0275, 0x4a7484aa6ea6e483, 0x5cb0a9dcbd41fbd4, 0x76f988da831153b5,
             0x983e5152ee66dfab, 0xa831c66d2db43210, 0xb00327c898fb213f, 0xbf597fc7beef0ee4,
             0xc6e00bf33da88fc2, 0xd5a79147930aa725, 0x06ca6351e003826f, 0x142929670a0e6e70)
    else if i < 48 then
      Pick16(i - 32,
             0x27b70a8546d22ffc, 0x2e1b21385c26c926, 0x4d2c6dfc5ac42aed, 0x53380d139d95b3df,
             0x650a73548baf63de, 0x766a0abb3c77b2a8, 0x81c2c92e47edaee6, 0x92722c851482353b,
             0xa2bfe8a14cf10364, 0xa81a664bbc423001, 0xc24b8b70d0f89791, 0xc76c51a30654be30,
             0xd192e819d6ef5218, 0xd69906245565a910, 0xf40e35855771202a, 0x106aa07032bbd1b8)
    else if i < 64 then
      Pick16(i - 48,
             0x19a4c116b8d2d0c8, 0x1e376c085141ab53, 0x2748774cdf8eeb99, 0x34b0bcb5e19b48a8,
             0x391c0cb3c5c95a63, 0x4ed8aa4ae3418acb, 0x5b9cca4f7763e373, 0x682e6ff3d6b2b8a3,
             0x748f82ee5defb2fc, 0x78a5636f43172f60, 0x84c87814a1f0ab72, 0x8cc702081a6439ec,
             0x90befffa23631e28, 0xa4506cebde82bde9, 0xbef9a3f7b2c67915, 0xc67178f2e372532b)
    else
      Pick16(i - 64,
             0xca273eceea26619c, 0xd186b8c721c0c207, 0xeada7dd6cde0eb1e, 0xf57d4f7fee6ed178,
             0x06f067aa72176fba, 0x0a637dc5a2c898a6, 0x113f9804bef90dae, 0x1b710b35131c471b,
             0x28db77f523047d84, 0x32caab7b40c72493, 0x3c9ebe0a15c9bebc, 0x431d67c49c100d4c,
             0x4cc5d4becb3e42b6, 0x597f299cfc657e2a, 0x5fcb6fab3ad6faec, 0x6c44198c4a475817)
  }

  // The logical functions as the code writes them.

  function Ch(x: bv64, y: bv64, z: bv64): bv64 { z ^ (x & (y ^ z)) }

  function Maj(x: bv64, y: bv64, z: bv64): bv64 { ((x | y) & z) | (x & y) }

  function BigSigma0(x: bv64): bv64 { Ror64(x, 28) ^ Ror64(x, 34) ^ Ror64(x, 39) }

  function BigSigma1(x: bv64): bv64 { Ror64(x, 14) ^ Ror64(x, 18) ^ Ror64(x, 41) }

  function Gamma0(x: bv64): bv64 { Ror64(x, 1) ^ Ror64(x, 8) ^ (x >> 7) }

  function Gamma1(x: bv64): bv64 { Ror64(x, 19) ^ Ror64(x, 61) ^ (x >> 6) }

  // The logical functions of section 4.1.3 of FIPS 180-4.

  function StdCh(x: bv64, y: bv64, z: bv64): bv64 { (x & y) ^ (!x & z) }

  function StdMaj(x: bv64, y: bv64, z: bv64): bv64 { (x & y) ^ (x & z) ^ (y & z) }

  lemma ChIsStandard(x: bv64, y: bv64, z: bv64)
    ensures Ch(x, y, z) == StdCh(x, y, z)
  {
    assert z ^ (x & (y ^ z)) == (x & y) ^ (!x & z);
  }

  lemma MajIsStandard(x: bv64, y: bv64, z: bv64)
    ensures Maj(x, y, z) == StdMaj(x, y, z)
  {
    assert ((x | y) & z) | (x & y) == (x & y) ^ (x & z) ^ (y & z);
  }

  /** What one round consumes. */
  datatype Input = Input(k: bv64, w: bv64)

  /** One round of section 6.4.2, step 3, of FIPS 180-4. */
  function Step(s: State, m: Input): State {
    var t1 := Sum64x5(s.h, BigSigma1(s.e), StdCh(s.e, s.f, s.g), m.k, m.w);
    var t2 := Add64(BigSigma0(s.a), StdMaj(s.a, s.b, s.c));
    Regs8(Add64(t1, t2), s.a, s.b, s.c, Add64(s.d, t1), s.e, s.f, s.g)
  }

  /** The schedule recurrence of section 6.4.2, step 1, over the sixteen previous words. */
  function Next(win: seq<bv64>): bv64 {
    if |win| != 16 then 0 else Sum64x4(Gamma1(win[14]), win[9], Gamma0(win[1]), win[0])
  }

  /** Undoes one round. */
  function Unstep(s: State, m: Input): State {
    var t1 := Sub64(s.a, Add64(BigSigma0(s.b), StdMaj(s.b, s.c, s.d)));
    Regs8(s.b, s.c, s.d, Sub64(s.e, t1), s.f, s.g, s.h,
          Unsum64x5(t1, BigSigma1(s.f), StdCh(s.f, s.g, s.h), m.k, m.w))
  }

  /** Undoes the schedule recurrence: the word before fifteen words, from the word after them. */
  function Previous(win: seq<bv64>, next: bv64): bv64 {
    if |win| != 15 then 0 else Unsum64x4(next, Gamma1(win[13]), win[8], Gamma0(win[0]))
  }

  function Inputs(ws: seq<bv64>): (ins: seq<Input>)
    requires |ws| == 80
    ensures |ins| == 80
  {
    seq(80, i requires 0 <= i < 80 => Input(K(i), ws[i]))
  }

  function Rounds(s: State, block: seq<byte>): State
    requires |block| == 128
  {
    Fold(Step, s, Inputs(Expand(Next, Words64H(block), 80)))
  }

  function AddFeedback(s: State, r: State): State {
    Regs8(Add64(s.a, r.a), Add64(s.b, r.b), Add64(s.c, r.c), Add64(s.d, r.d),
          Add64(s.e, r.e), Add64(s.f, r.f), Add64(s.g, r.g), Add64(s.h, r.h))
  }

  /** The compression function: the rounds, then the feedback addition. */
  function Compress(s: State, block: seq<byte>): State
    requires |block| == 128
  {
    AddFeedback(s, Rounds(s, block))
  }

  /** The registers r are where the standard is after i rounds from s0 with the schedule ws. */
  ghost predicate Reached(s0: State, ws: seq<bv64>, i: nat, r: State) {
    |ws| == 80 && i <= 80 && r == Fold(Step, s0, Inputs(ws)[..i])
  }

  // The two temporaries of the RND macro.

  function T0(e: bv64, f: bv64, g: bv64, h: bv64, ki: bv64, wi: bv64): bv64 {
    Sum64x5(h, BigSigma1(e), Ch(e, f, g), ki, wi)
  }

  function T1(a: bv64, b: bv64, c: bv64): bv64 {
    Add64(BigSigma0(a), Maj(a, b, c))
  }

  lemma MacroIsStep(s: State, m: Input)
    ensures var t0 := T0(s.e, s.f, s.g, s.h, m.k, m.w);
            Step(s, m) == Regs8(Add64(t0, T1(s.a, s.b, s.c)), s.a, s.b, s.c, Add64(s.d, t0), s.e, s.f, s.g)
  {
    hide BigSigma0, BigSigma1, Ch, Maj, StdCh, StdMaj, Sum64x5, Add64;
    ChIsStandard(s.e, s.f, s.g);
    MajIsStandard(s.a, s.b, s.c);
  }

  lemma NextReached(s0: State, ws: seq<bv64>, i: nat, s: State)
    requires i < 80 && Reached(s0, ws, i, s)
    ensures var t0 := T0(s.e, s.f, s.g, s.h, K(i), ws[i]);
            Reached(s0, ws, i + 1, Regs8(Add64(t0, T1(s.a, s.b, s.c)), s.a, s.b, s.c, Add64(s.d, t0), s.e, s.f, s.g))
  {
    hide K, T0, T1, Step, Add64;
    FoldNext(Step, s0, Inputs(ws), i);
    MacroIsStep(s, Inputs(ws)[i]);
  }

  /** The RND macro: it writes only S[d] and S[h]; renaming the registers one place round is then one
      round of the standard. */
  method Rnd(S: array<bv64>, W: array<bv64>, a: nat, b: nat, c: nat, d: nat, e: nat, f: nat, g: nat, h: nat,
             i: nat, ghost s0: State)
    requires S.Length == 8 && W.Length == 80 && S != W && Apart(a, b, c, d, e, f, g, h)
    requires i < 80
    requires Reached(s0, W[..], i, Regs8(S[a], S[b], S[c], S[d], S[e], S[f], S[g], S[h]))
    modifies S
    ensures Reached(s0, W[..], i + 1, Regs8(S[h], S[a], S[b], S[c], S[d], S[e], S[f], S[g]))
  {
    hide K, T0, T1, Step, Reached, Add64;
    NextReached(s0, W[..], i, Regs8(S[a], S[b], S[c], S[d], S[e], S[f], S[g], S[h]));
    var t0 := T0(S[e], S[f], S[g], S[h], K(i), W[i]);
    var t1 := T1(S[a], S[b], S[c]);
    S[d] := Add64(S[d], t0);
    S[h] := Add64(t0, t1);
  }

  /** The unrolled rounds, eight to an iteration. */
  method UnrolledRounds(S: array<bv64>, W: array<bv64>, ghost s0: State)
    requires S.Length == 8 && W.Length == 80 && S != W
    requires Reached(s0, W[..], 0, View8(S))
    modifies S
    ensures Reached(s0, W[..], 80, View8(S))
  {
    hide Reached, K;
    var i := 0;
    while i < 80
      invariant 0 <= i <= 80 && i % 8 == 0
      invariant Reached(s0, W[..], i, View8(S))
    {
      Rnd(S, W, 0, 1, 2, 3, 4, 5, 6, 7, i + 0, s0);
      Rnd(S, W, 7, 0, 1, 2, 3, 4, 5, 6, i + 1, s0);
      Rnd(S, W, 6, 7, 0, 1, 2, 3, 4, 5, i + 2, s0);
      Rnd(S, W, 5, 6, 7, 0, 1, 2, 3, 4, i + 3, s0);
      Rnd(S, W, 4, 5, 6, 7, 0, 1, 2, 3, i + 4, s0);
      Rnd(S, W, 3, 4, 5, 6, 7, 0, 1, 2, i + 5, s0);
      Rnd(S, W, 2, 3, 4, 5, 6, 7, 0, 1, i + 6, s0);
      Rnd(S, W, 1, 2, 3, 4, 5, 6, 7, 0, i + 7, s0);
      i := i + 8;
    }
  }

  /** The shifting rounds (LTC_SMALL_CODE): each moves the contents of S one place up. */
  method ShiftingRounds(S: array<bv64>, W: array<bv64>, ghost s0: State)
    requires S.Length == 8 && W.Length == 80 && S != W
    requires Reached(s0, W[..], 0, View8(S))
    modifies S
    ensures Reached(s0, W[..], 80, View8(S))
  {
    hide Reached, K, T0, T1, Add64;
    for i := 0 to 80
      invariant Reached(s0, W[..], i, View8(S))
    {
      NextReached(s0, W[..], i, View8(S));
      var t0 := T0(S[4], S[5], S[6], S[7], K(i), W[i]);
      var t1 := T1(S[0], S[1], S[2]);
      S[7] := S[6];
      S[6] := S[5];
      S[5] := S[4];
      S[4] := Add64(S[3], t0);
      S[3] := S[2];
      S[2] := S[1];
      S[1] := S[0];
      S[0] := Add64(t0, t1);
    }
  }

  /** Loads the block big-endian and expands it to the 80 words of the schedule. */
  method FillSchedule(buf: seq<byte>) returns (W: array<bv64>)
    requires |buf| == 128
    ensures fresh(W) && W.Length == 80 && W[..] == Expand(Next, Words64H(buf), 80)
  {
    hide Gamma0, Gamma1, Sum64x4, Load64H;
    W := new bv64[80];
    for i := 0 to 16
      invariant W[..i] == Words64H(buf)[..i]
    {
      W[i] := Load64H(buf[8 * i..8 * i + 8]);
    }
    for i := 16 to 80
      invariant W[..i] == Expand(Next, Words64H(buf), i)
    {
      hide Next;
      NextWord(W[..i]);
      assert W[..i][i - 16..] == W[i - 16..i];
      W[i] := Sum64x4(Gamma1(W[i - 2]), W[i - 7], Gamma0(W[i - 15]), W[i - 16]);
      assert W[..i + 1] == W[..i] + [W[i]];
    }
    assert W[..] == W[..80];
  }

  lemma NextWord(ws: seq<bv64>)
    requires |ws| >= 16
    ensures var i := |ws|;
            Next(ws[i - 16..]) == Sum64x4(Gamma1(ws[i - 2]), ws[i - 7], Gamma0(ws[i - 15]), ws[i - 16])
  {
    hide Gamma0, Gamma1, Sum64x4;
  }

  /** sha512_compress in its unrolled form, with the feedback loop at the end. */
  method CompressUnrolled(state: array<bv64>, buf: seq<byte>)
    requires state.Length == 8 && |buf| == 128
    modifies state
    ensures View8(state) == Compress(old(View8(state)), buf)
  {
    var S := CopyState(state);
    var W := FillSchedule(buf);
    ghost var s0 := View8(state);
    UnrolledRounds(S, W, s0);
    assert Inputs(W[..])[..80] == Inputs(W[..]);
    Feedback(state, S);
  }

  /** sha512_compress in its shifting form (LTC_SMALL_CODE). */
  method CompressShifting(state: array<bv64>, buf: seq<byte>)
    requires state.Length == 8 && |buf| == 128
    modifies state
    ensures View8(state) == Compress(old(View8(state)), buf)
  {
    var S := CopyState(state);
    var W := FillSchedule(buf);
    ShiftingRounds(S, W, View8(state));
    assert Inputs(W[..])[..80] == Inputs(W[..]);
    Feedback(state, S);
  }

  method CopyState(state: array<bv64>) returns (S: array<bv64>)
    requires state.Length == 8
    ensures fresh(S) && S.Length == 8 && View8(S) == View8(state)
  {
    S := new bv64[8];
    for i := 0 to 8
      invariant forall j :: 0 <= j < i ==> S[j] == state[j]
    {
      S[i] := state[i];
    }
  }

  method Feedback(state: array<bv64>, S: array<bv64>)
    requires state.Length == S.Length == 8 && state != S
    modifies state
    ensures View8(state) == AddFeedback(old(View8(state)), View8(S))
  {
    hide Add64;
    for i := 0 to 8
      invariant forall j :: 0 <= j < i ==> state[j] == Add64(old(state[j]), S[j])
      invariant forall j :: i <= j < 8 ==> state[j] == old(state[j])
    {
      state[i] := Add64(state[i], S[i]);
    }
  }

  lemma StepInverse()
    ensures Inverse(Step, Unstep)
  {
    hide BigSigma0, BigSigma1, StdCh, StdMaj;
    forall s, m ensures Unstep(Step(s, m), m) == s && Step(Unstep(s, m), m) == s {
      var t2 := Add64(BigSigma0(s.a), StdMaj(s.a, s.b, s.c));
      var t1 := Sum64x5(s.h, BigSigma1(s.e), StdCh(s.e, s.f, s.g), m.k, m.w);
      AddSubLong(t1, t2);
      AddSubLong(s.d, t1);
      Sum5Unsum5Long(s.h, BigSigma1(s.e), StdCh(s.e, s.f, s.g), m.k, m.w);
      var u2 := Add64(BigSigma0(s.b), StdMaj(s.b, s.c, s.d));
      var u1 := Sub64(s.a, u2);
      SubAddLong(s.a, u2);
      SubAddLong(s.e, u1);
      Unsum5Sum5Long(u1, BigSigma1(s.f), StdCh(s.f, s.g, s.h), m.k, m.w);
      hide Add64, Sub64, Sum64x5, Unsum64x5;
    }
  }

  /** For a fixed block the 80 rounds are a bijection on the chaining state. */
  lemma RoundsBijection(s: State, block: seq<byte>)
    requires |block| == 128
    ensures var ins := Inputs(Expand(Next, Words64H(block), 80));
            Unfold(Unstep, Rounds(s, block), ins) == s && Fold(Step, Unfold(Unstep, s, ins), ins) == s
  {
    StepInverse();
    FoldBijection(Step, Unstep, s, Inputs(Expand(Next, Words64H(block), 80)));
  }

  lemma ScheduleReversible()
    ensures Reversible(Next, Previous)
  {
    hide Gamma0, Gamma1;
    forall win: seq<bv64> | |win| == 16 ensures Previous(win[1..], Next(win)) == win[0] {
      Sum4Unsum4Long(Gamma1(win[14]), win[9], Gamma0(win[1]), win[0]);
      hide Sum64x4, Unsum64x4;
    }
  }

  /** Any sixteen consecutive words of the schedule give back the whole schedule and the block's bytes. */
  lemma BlockFromWindow(block: seq<byte>, t: nat)
    requires |block| == 128 && t <= 64
    ensures var ws := Expand(Next, Words64H(block), 80);
            var start := Rewind(Previous, ws[t..t + 16], t);
            Expand(Next, start, 80) == ws && Bytes64H(start) == block
  {
    var ws := Expand(Next, Words64H(block), 80);
    ScheduleReversible();
    ExpandFollows(Next, Words64H(block), 80);
    WindowDetermines(Next, Previous, ws, t);
    RewindWindow(Next, Previous, ws, t);
    BytesOfWords64H(block);
  }
}
