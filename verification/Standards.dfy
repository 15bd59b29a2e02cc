/** The hash functions written out from the standards, apart from the parameters of the streaming interface: the padding,
    the iteration of the compression function from an initial value, and the bytes of the digest. */
module Standards {
  import opened Arithmetic
  import opened Folds
  import opened Words
  import opened Registers
  import opened Encoding
  import Sha1
  import Sha256
  import Sha512
  import Md5
  import Rmd160

  // Bytes as numbers.

  /** The number that bytes stand for, most significant byte first. */
  function Number(b: seq<byte>): nat {
    if b == [] then 0 else 256 * Number(b[..|b| - 1]) + b[|b| - 1] as nat
  }

  /** The number that bytes stand for, least significant byte first. */
  function NumberReversed(b: seq<byte>): nat {
    if b == [] then 0 else b[0] as nat + 256 * NumberReversed(b[1..])
  }

  /** The bytes that are stored stand for the low bytes of the number. */
  lemma {:induction false} EncodedNumber(k: nat, x: nat)
    ensures Pow256(k) > 0
    ensures Number(BigEndian(k, x)) == NumberReversed(LittleEndian(k, x)) == x % Pow256(k)
    decreases k
  {
    if k > 0 {
      var b, l := BigEndian(k, x), LittleEndian(k, x);
      assert b[..k - 1] == BigEndian(k - 1, x / 256) && l[1..] == LittleEndian(k - 1, x / 256);
      ByteValue(x % 256);
      EncodedNumber(k - 1, x / 256);
      ModStep(x, Pow256(k - 1));
    }
  }

  lemma {:induction false} LeadingZeros(z: seq<byte>, b: seq<byte>)
    requires forall i :: 0 <= i < |z| ==> z[i] == 0
    ensures Number(z + b) == Number(b)
    decreases |b|, |z|
  {
    if b != [] {
      assert (z + b)[..|z| + |b| - 1] == z + b[..|b| - 1];
      LeadingZeros(z, b[..|b| - 1]);
    } else if z != [] {
      assert (z + b)[..|z| - 1] == z[..|z| - 1] + b;
      LeadingZeros(z[..|z| - 1], b);
    }
  }

  lemma LastDigit(x: nat, y: nat, b: byte, c: byte)
    requires 256 * x + b as nat == 256 * y + c as nat
    ensures x == y && b == c
  {}

  lemma {:induction false} NumberInjective(b: seq<byte>, c: seq<byte>)
    requires |b| == |c| && Number(b) == Number(c)
    ensures b == c
    decreases |b|
  {
    if b != [] {
      var k := |b| - 1;
      LastDigit(Number(b[..k]), Number(c[..k]), b[k], c[k]);
      NumberInjective(b[..k], c[..k]);
      assert b == b[..k] + [b[k]] && c == c[..k] + [c[k]];
    }
  }

  lemma {:induction false} NumberReversedInjective(b: seq<byte>, c: seq<byte>)
    requires |b| == |c| && NumberReversed(b) == NumberReversed(c)
    ensures b == c
    decreases |b|
  {
    if b != [] {
      LastDigit(NumberReversed(b[1..]), NumberReversed(c[1..]), b[0], c[0]);
      NumberReversedInjective(b[1..], c[1..]);
      assert b == [b[0]] + b[1..] && c == [c[0]] + c[1..];
    }
  }

  // Padding.

  /** A one bit and zeros that fill a message of n bytes up to whole blocks with a length field at the end, and no more
      blocks than it takes (sections 5.1.1 and 5.1.2 of FIPS 180-4, sections 3.1 and 3.2 of RFC 1321). */
  ghost predicate FillsUp(block: nat, field: nat, n: nat, pad: seq<byte>)
    requires block > 0
  {
    && 1 + field <= |pad| <= block + field && (n + |pad|) % block == 0
    && pad[0] == 0x80 && forall i :: 1 <= i < |pad| - field ==> pad[i] == 0
  }

  /** The padding of SHA-1 and SHA-256: the length in bits in the last eight bytes, most significant first. */
  ghost predicate IsPad64(n: nat, pad: seq<byte>) {
    FillsUp(64, 8, n, pad) && Number(pad[|pad| - 8..]) == 8 * n % TWO_TO_64
  }

  /** The padding of MD5 and RIPEMD-160: the same, least significant first. */
  ghost predicate IsPad64Reversed(n: nat, pad: seq<byte>) {
    FillsUp(64, 8, n, pad) && NumberReversed(pad[|pad| - 8..]) == 8 * n % TWO_TO_64
  }

  /** The padding that sha512_done writes: sixteen bytes for the length, which it keeps modulo 2^64. */
  ghost predicate IsPad128(n: nat, pad: seq<byte>) {
    FillsUp(128, 16, n, pad) && Number(pad[|pad| - 16..]) == 8 * n % TWO_TO_64
  }

  lemma SameEnd(block: nat, m: nat, n: nat)
    requires block > 0 && m % block == 0 && n % block == 0 && m < n + block && n < m + block
    ensures m == n
  {
    var a, b := m / block, n / block;
    assert m == block * a && n == block * b;
    if a < b {
      MulMonotone(block, a + 1, b);
    } else if b < a {
      MulMonotone(block, b + 1, a);
    }
  }

  lemma FilledAlike(block: nat, field: nat, n: nat, p: seq<byte>, q: seq<byte>)
    requires block > 0 && FillsUp(block, field, n, p) && FillsUp(block, field, n, q)
    requires p[|p| - field..] == q[|q| - field..]
    ensures p == q
  {
    SameEnd(block, n + |p|, n + |q|);
    var k := |p| - field;
    forall i | 0 <= i < |p| ensures p[i] == q[i] {
      if i >= k {
        assert p[k..][i - k] == q[k..][i - k];
      }
    }
  }

  /** There is one padding of each kind. */
  lemma PadIsUnique(n: nat, p: seq<byte>, q: seq<byte>)
    ensures IsPad64(n, p) && IsPad64(n, q) ==> p == q
    ensures IsPad64Reversed(n, p) && IsPad64Reversed(n, q) ==> p == q
    ensures IsPad128(n, p) && IsPad128(n, q) ==> p == q
  {
    hide Number, NumberReversed;
    if IsPad64(n, p) && IsPad64(n, q) {
      NumberInjective(p[|p| - 8..], q[|q| - 8..]);
      FilledAlike(64, 8, n, p, q);
    }
    if IsPad64Reversed(n, p) && IsPad64Reversed(n, q) {
      NumberReversedInjective(p[|p| - 8..], q[|q| - 8..]);
      FilledAlike(64, 8, n, p, q);
    }
    if IsPad128(n, p) && IsPad128(n, q) {
      NumberInjective(p[|p| - 16..], q[|q| - 16..]);
      FilledAlike(128, 16, n, p, q);
    }
  }

  // The chaining values, and the digests of a message: the words of the last chaining value.

  ghost predicate AreBlocks(size: nat, blocks: seq<seq<byte>>) {
    forall b :: b in blocks ==> |b| == size
  }

  function Sha1Chain(init: Sha1.State, blocks: seq<seq<byte>>): Sha1.State
    requires AreBlocks(64, blocks)
  {
    if blocks == [] then init
    else
      var k := |blocks| - 1;
      assert blocks[k] in blocks;
      Sha1.Compress(Sha1Chain(init, blocks[..k]), blocks[k])
  }

  function Sha1Digest(s: Sha1.State): seq<byte> {
    Concat([Store32H(s.a), Store32H(s.b), Store32H(s.c), Store32H(s.d), Store32H(s.e)])
  }

  /** Section 6.1 of FIPS 180-4. */
  ghost predicate IsSha1(init: Sha1.State, message: seq<byte>, digest: seq<byte>) {
    exists pad :: IsPad64(|message|, pad) && digest == Sha1Digest(Sha1Chain(init, Blocks(64, message + pad)))
  }

  function Sha256Chain(init: Sha256.State, blocks: seq<seq<byte>>): Sha256.State
    requires AreBlocks(64, blocks)
  {
    if blocks == [] then init
    else
      var k := |blocks| - 1;
      assert blocks[k] in blocks;
      Sha256.Compress(Sha256Chain(init, blocks[..k]), blocks[k])
  }

  function Sha256Digest(s: Sha256.State): seq<byte> {
    Concat([Store32H(s.a), Store32H(s.b), Store32H(s.c), Store32H(s.d),
            Store32H(s.e), Store32H(s.f), Store32H(s.g), Store32H(s.h)])
  }

  /** Section 6.2 of FIPS 180-4. */
  ghost predicate IsSha256(init: Sha256.State, message: seq<byte>, digest: seq<byte>) {
    exists pad :: IsPad64(|message|, pad) && digest == Sha256Digest(Sha256Chain(init, Blocks(64, message + pad)))
  }

  function Sha512Chain(init: Sha512.State, blocks: seq<seq<byte>>): Sha512.State
    requires AreBlocks(128, blocks)
  {
    if blocks == [] then init
    else
      var k := |blocks| - 1;
      assert blocks[k] in blocks;
      Sha512.Compress(Sha512Chain(init, blocks[..k]), blocks[k])
  }

  function Sha512Digest(s: Sha512.State): seq<byte> {
    Concat([Store64H(s.a), Store64H(s.b), Store64H(s.c), Store64H(s.d),
            Store64H(s.e), Store64H(s.f), Store64H(s.g), Store64H(s.h)])
  }

  /** Section 6.4 of FIPS 180-4. */
  ghost predicate IsSha512(init: Sha512.State, message: seq<byte>, digest: seq<byte>) {
    exists pad :: IsPad128(|message|, pad) && digest == Sha512Digest(Sha512Chain(init, Blocks(128, message + pad)))
  }

  function Md5Chain(init: Md5.State, blocks: seq<seq<byte>>): Md5.State
    requires AreBlocks(64, blocks)
  {
    if blocks == [] then init
    else
      var k := |blocks| - 1;
      assert blocks[k] in blocks;
      Md5.Compress(Md5Chain(init, blocks[..k]), blocks[k])
  }

  function Md5Digest(s: Md5.State): seq<byte> {
    Concat([Store32L(s.a), Store32L(s.b), Store32L(s.c), Store32L(s.d)])
  }

  /** Sections 3.4 and 3.5 of RFC 1321. */
  ghost predicate IsMd5(init: Md5.State, message: seq<byte>, digest: seq<byte>) {
    exists pad :: IsPad64Reversed(|message|, pad) && digest == Md5Digest(Md5Chain(init, Blocks(64, message + pad)))
  }

  function Rmd160Chain(init: Rmd160.State, blocks: seq<seq<byte>>): Rmd160.State
    requires AreBlocks(64, blocks)
  {
    if blocks == [] then init
    else
      var k := |blocks| - 1;
      assert blocks[k] in blocks;
      Rmd160.Compress(Rmd160Chain(init, blocks[..k]), blocks[k])
  }

  function Rmd160Digest(s: Rmd160.State): seq<byte> {
    Concat([Store32L(s.a), Store32L(s.b), Store32L(s.c), Store32L(s.d), Store32L(s.e)])
  }

  /** RIPEMD-160. */
  ghost predicate IsRmd160(init: Rmd160.State, message: seq<byte>, digest: seq<byte>) {
    exists pad ::
      IsPad64Reversed(|message|, pad) && digest == Rmd160Digest(Rmd160Chain(init, Blocks(64, message + pad)))
  }

  /** The first six words only (section 6.5 of FIPS 180-4). */
  ghost predicate IsSha384(init: Sha512.State, message: seq<byte>, digest: seq<byte>) {
    exists pad ::
      && IsPad128(|message|, pad)
      && var s := Sha512Chain(init, Blocks(128, message + pad));
         digest == Concat([Store64H(s.a), Store64H(s.b), Store64H(s.c), Store64H(s.d), Store64H(s.e), Store64H(s.f)])
  }

  /** Cut into blocks, a message is its blocks and what is left over. */
  lemma {:induction false} BlocksAreTheData(n: nat, data: seq<byte>)
    requires n > 0
    ensures Concat(Blocks(n, data)) + Tail(n, data) == data
    decreases |data|
  {
    hide Blocks, Tail, Concat;
    if |data| >= n {
      var rest := data[n..];
      BlocksAreTheData(n, rest);
      CutOnce(n, data);
      ConcatFront(data[..n], Blocks(n, rest));
      assert data == data[..n] + (Concat(Blocks(n, rest)) + Tail(n, rest));
    } else {
      CutNone(n, data);
      ConcatNone<byte>();
    }
  }

  // The digest loops of the code store word after word.

  lemma {:induction false} Bytes32HIsConcat(ws: seq<bv32>)
    ensures Bytes32H(ws) == Concat(seq(|ws|, i requires 0 <= i < |ws| => Store32H(ws[i])))
  {
    hide Store32H;
    if ws != [] {
      var k := |ws| - 1;
      Bytes32HIsConcat(ws[..k]);
      assert seq(k + 1, i requires 0 <= i < k + 1 => Store32H(ws[i]))[..k]
          == seq(k, i requires 0 <= i < k => Store32H(ws[..k][i]));
      assert Bytes32H(ws) == Bytes32H(ws[..k]) + Store32H(ws[k]);
    }
  }

  lemma {:induction false} Bytes32LIsConcat(ws: seq<bv32>)
    ensures Bytes32L(ws) == Concat(seq(|ws|, i requires 0 <= i < |ws| => Store32L(ws[i])))
  {
    hide Store32L;
    if ws != [] {
      var k := |ws| - 1;
      Bytes32LIsConcat(ws[..k]);
      assert seq(k + 1, i requires 0 <= i < k + 1 => Store32L(ws[i]))[..k]
          == seq(k, i requires 0 <= i < k => Store32L(ws[..k][i]));
      assert Bytes32L(ws) == Bytes32L(ws[..k]) + Store32L(ws[k]);
    }
  }

  lemma {:induction false} Bytes64HIsConcat(ws: seq<bv64>)
    ensures Bytes64H(ws) == Concat(seq(|ws|, i requires 0 <= i < |ws| => Store64H(ws[i])))
  {
    hide Store64H;
    if ws != [] {
      var k := |ws| - 1;
      Bytes64HIsConcat(ws[..k]);
      assert seq(k + 1, i requires 0 <= i < k + 1 => Store64H(ws[i]))[..k]
          == seq(k, i requires 0 <= i < k => Store64H(ws[..k][i]));
      assert Bytes64H(ws) == Bytes64H(ws[..k]) + Store64H(ws[k]);
    }
  }

  lemma Sha1DigestIsBytes(s: Sha1.State)
    ensures Bytes32H([s.a, s.b, s.c, s.d, s.e]) == Sha1Digest(s)
  {
    hide Store32H, Bytes32H, Concat;
    var ws := [s.a, s.b, s.c, s.d, s.e];
    Bytes32HIsConcat(ws);
    assert seq(5, i requires 0 <= i < 5 => Store32H(ws[i])) ==
           [Store32H(s.a), Store32H(s.b), Store32H(s.c), Store32H(s.d), Store32H(s.e)];
  }

  lemma Sha256DigestIsBytes(s: Sha256.State)
    ensures Bytes32H([s.a, s.b, s.c, s.d, s.e, s.f, s.g, s.h]) == Sha256Digest(s)
  {
    hide Store32H, Bytes32H, Concat;
    var ws := [s.a, s.b, s.c, s.d, s.e, s.f, s.g, s.h];
    Bytes32HIsConcat(ws);
    assert seq(8, i requires 0 <= i < 8 => Store32H(ws[i])) ==
           [Store32H(s.a), Store32H(s.b), Store32H(s.c), Store32H(s.d),
            Store32H(s.e), Store32H(s.f), Store32H(s.g), Store32H(s.h)];
  }

  lemma Sha512DigestIsBytes(s: Sha512.State)
    ensures Bytes64H([s.a, s.b, s.c, s.d, s.e, s.f, s.g, s.h]) == Sha512Digest(s)
  {
    hide Store64H, Bytes64H, Concat;
    var ws := [s.a, s.b, s.c, s.d, s.e, s.f, s.g, s.h];
    Bytes64HIsConcat(ws);
    assert seq(8, i requires 0 <= i < 8 => Store64H(ws[i])) ==
           [Store64H(s.a), Store64H(s.b), Store64H(s.c), Store64H(s.d),
            Store64H(s.e), Store64H(s.f), Store64H(s.g), Store64H(s.h)];
  }

  lemma Md5DigestIsBytes(s: Md5.State)
    ensures Bytes32L([s.a, s.b, s.c, s.d]) == Md5Digest(s)
  {
    hide Store32L, Bytes32L, Concat;
    var ws := [s.a, s.b, s.c, s.d];
    Bytes32LIsConcat(ws);
    assert seq(4, i requires 0 <= i < 4 => Store32L(ws[i])) ==
           [Store32L(s.a), Store32L(s.b), Store32L(s.c), Store32L(s.d)];
  }

  lemma Rmd160DigestIsBytes(s: Rmd160.State)
    ensures Bytes32L([s.a, s.b, s.c, s.d, s.e]) == Rmd160Digest(s)
  {
    hide Store32L, Bytes32L, Concat;
    var ws := [s.a, s.b, s.c, s.d, s.e];
    Bytes32LIsConcat(ws);
    assert seq(5, i requires 0 <= i < 5 => Store32L(ws[i])) ==
           [Store32L(s.a), Store32L(s.b), Store32L(s.c), Store32L(s.d), Store32L(s.e)];
  }

  lemma Sha384DigestBytes(s: Sha512.State)
    ensures |Sha512Digest(s)| == 64
    ensures Sha512Digest(s)[..48] ==
            Concat([Store64H(s.a), Store64H(s.b), Store64H(s.c), Store64H(s.d), Store64H(s.e), Store64H(s.f)])
  {
    hide Store64H, Concat;
    var six := [Store64H(s.a), Store64H(s.b), Store64H(s.c), Store64H(s.d), Store64H(s.e), Store64H(s.f)];
    var seven := six + [Store64H(s.g)];
    var eight := seven + [Store64H(s.h)];
    assert eight == [Store64H(s.a), Store64H(s.b), Store64H(s.c), Store64H(s.d),
                     Store64H(s.e), Store64H(s.f), Store64H(s.g), Store64H(s.h)];
    ConcatWords(six);
    ConcatLast(six, Store64H(s.g));
    ConcatLast(seven, Store64H(s.h));
  }

  lemma {:induction false} ConcatWords(xs: seq<seq<byte>>)
    requires forall x :: x in xs ==> |x| == 8
    ensures |Concat(xs)| == 8 * |xs|
  {
    if xs != [] {
      var k := |xs| - 1;
      assert xs[k] in xs;
      ConcatWords(xs[..k]);
    }
  }
}
