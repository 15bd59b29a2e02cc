/** The Merkle-Damgard reduction: two messages with one digest give two inputs with one output to the
    compression function, found by walking the two chains of blocks backwards. */
module MerkleDamgard {
  import opened Words
  import opened Folds
  import opened Encoding
  import opened Padding

  /** The chaining value before the block that is k blocks from the end. */
  function Before<S, M>(step: (S, M) -> S, s: S, ms: seq<M>, k: nat): S
    requires k < |ms|
  {
    Fold(step, s, ms[..|ms| - 1 - k])
  }

  /** The block that is k blocks from the end. */
  function BlockAt<M>(ms: seq<M>, k: nat): M
    requires k < |ms|
  {
    ms[|ms| - 1 - k]
  }

  /** How far back the two chains first differ in the chaining value or the block; the last common place
      if they do not. */
  function WalkBack<S(==), M(==)>(step: (S, M) -> S, s: S, p: seq<M>, q: seq<M>): (k: nat)
    requires p != [] && q != []
    ensures k < |p| && k < |q|
    decreases |p|
  {
    var p', q' := p[..|p| - 1], q[..|q| - 1];
    if p' == [] || q' == [] || Before(step, s, p, 0) != Before(step, s, q, 0) || BlockAt(p, 0) != BlockAt(q, 0)
    then 0
    else 1 + WalkBack(step, s, p', q')
  }

  /** Two different inputs of step with one output, k blocks from the end of the two chains. */
  ghost predicate Collides<S, M>(step: (S, M) -> S, s: S, p: seq<M>, q: seq<M>, k: nat)
    requires k < |p| && k < |q|
  {
    && (Before(step, s, p, k) != Before(step, s, q, k) || BlockAt(p, k) != BlockAt(q, k))
    && step(Before(step, s, p, k), BlockAt(p, k)) == step(Before(step, s, q, k), BlockAt(q, k))
  }

  lemma LastStep<S, M>(step: (S, M) -> S, s: S, p: seq<M>)
    requires p != []
    ensures Fold(step, s, p) == step(Before(step, s, p, 0), BlockAt(p, 0))
  {}

  /** Places counted from the end move by one when the last block is dropped. */
  lemma DropLast<S, M>(step: (S, M) -> S, s: S, p: seq<M>, k: nat)
    requires k + 1 < |p|
    ensures Before(step, s, p[..|p| - 1], k) == Before(step, s, p, k + 1)
    ensures BlockAt(p[..|p| - 1], k) == BlockAt(p, k + 1)
  {
    var n := |p| - 1;
    assert p[..n][..n - 1 - k] == p[..n - 1 - k];
  }

  lemma {:induction false} WalkFinds<S, M>(step: (S, M) -> S, s: S, p: seq<M>, q: seq<M>)
    requires p != [] && q != [] && p != q && Fold(step, s, p) == Fold(step, s, q)
    requires |p| == |q| || BlockAt(p, 0) != BlockAt(q, 0)
    ensures Collides(step, s, p, q, WalkBack(step, s, p, q))
    decreases |p|
  {
    LastStep(step, s, p);
    LastStep(step, s, q);
    if Before(step, s, p, 0) == Before(step, s, q, 0) && BlockAt(p, 0) == BlockAt(q, 0) {
      var p', q' := p[..|p| - 1], q[..|q| - 1];
      assert p == p' + [BlockAt(p, 0)] && q == q' + [BlockAt(q, 0)];
      assert Fold(step, s, p') == Fold(step, s, q');
      WalkFinds(step, s, p', q');
      var k := WalkBack(step, s, p', q');
      assert WalkBack(step, s, p, q) == k + 1;
      DropLast(step, s, p, k);
      DropLast(step, s, q, k);
      hide WalkBack, Fold, Before, BlockAt;
    }
  }

  /** The digest shows the whole chaining value. */
  ghost predicate DigestInjective<S(!new)>(alg: Alg<S>) {
    forall s, t :: alg.digest(s) == alg.digest(t) ==> s == t
  }

  /** The stored lengths tell the two lengths apart if they differ, as they do under 2^61 bytes. */
  ghost predicate LengthsTell(m1: seq<byte>, m2: seq<byte>) {
    |m1| == |m2| || 8 * |m1| % TWO_TO_64 != 8 * |m2| % TWO_TO_64
  }

  /** Two different messages under 2^61 bytes. */
  ghost predicate DifferentShort(m1: seq<byte>, m2: seq<byte>) {
    m1 != m2 && |m1| < 0x2000_0000_0000_0000 && |m2| < 0x2000_0000_0000_0000
  }

  lemma ShortLengthsTell(m1: seq<byte>, m2: seq<byte>)
    requires DifferentShort(m1, m2)
    ensures LengthsTell(m1, m2)
  {}

  /** Different messages either have different lengths recorded in their last blocks, or as many blocks
      that differ somewhere. */
  lemma DifferentBlocks<S(!new)>(alg: Alg<S>, m1: seq<byte>, m2: seq<byte>)
    requires alg.Valid() && m1 != m2 && LengthsTell(m1, m2)
    ensures var p, q := PaddedBlocks(alg, m1), PaddedBlocks(alg, m2);
            && p != [] && q != [] && p != q
            && (|p| == |q| || BlockAt(p, 0) != BlockAt(q, 0))
  {
    hide Pad, Blocks, Tail, StoreLength;
    var n, d1, d2 := alg.blockSize, m1 + Pad(alg, |m1|), m2 + Pad(alg, |m2|);
    PaddedIsWhole(alg, m1, d1);
    PaddedIsWhole(alg, m2, d2);
    PaddedEnd(alg, m1);
    PaddedEnd(alg, m2);
    LastBlock(n, d1);
    LastBlock(n, d2);
    if |m1| == |m2| {
      PadOfLength(alg, m1, m2);
      SameLengthSameCount(n, d1, d2);
      if Blocks(n, d1) == Blocks(n, d2) {
        BlocksInjective(n, d1, d2);
        PadInjective(alg, m1, m2);
      }
    } else if d1[|d1| - n..] == d2[|d2| - n..] {
      assert d1[|d1| - 8..] == d1[|d1| - n..][n - 8..] && d2[|d2| - 8..] == d2[|d2| - n..][n - 8..];
      StoreLengthInjective(alg.bigEndian, 8 * |m1| % TWO_TO_64, 8 * |m2| % TWO_TO_64);
    }
  }

  lemma PadOfLength<S(!new)>(alg: Alg<S>, m1: seq<byte>, m2: seq<byte>)
    requires alg.Valid() && |m1| == |m2|
    ensures |m1 + Pad(alg, |m1|)| == |m2 + Pad(alg, |m2|)|
  {}

  /** Walking back from the ends of the two padded messages finds a collision of the compression function. */
  ghost predicate WalkCollides<S(!new)>(alg: Alg<S>, m1: seq<byte>, m2: seq<byte>)
    requires alg.Valid()
  {
    var p, q := PaddedBlocks(alg, m1), PaddedBlocks(alg, m2);
    && p != [] && q != []
    && Collides(alg.compress, alg.init, p, q, WalkBack(alg.compress, alg.init, p, q))
  }

  /** A collision of the hash is a collision of its compression function. */
  lemma CollisionReduction<S(!new)>(alg: Alg<S>, m1: seq<byte>, m2: seq<byte>)
    requires alg.Valid() && DigestInjective(alg)
    requires m1 != m2 && LengthsTell(m1, m2)
    requires Hash(alg, m1) == Hash(alg, m2)
    ensures WalkCollides(alg, m1, m2)
  {
    DifferentBlocks(alg, m1, m2);
    hide PaddedBlocks;
    WalkFinds(alg.compress, alg.init, PaddedBlocks(alg, m1), PaddedBlocks(alg, m2));
  }
}
