/** The streaming interface of the hashes: HASH_PROCESS and the done functions, which share one text but
    for the parameters in Alg. */
module Streaming {
  import opened Words
  import opened Folds
  import opened Encoding
  import opened Padding

  datatype Status = Ok | InvalidArg

  /** What a hash state stands for: the chaining value, the bytes waiting in the buffer, and the bits
      compressed so far modulo 2^64. */
  datatype View<S> = View(state: S, pending: seq<byte>, length: nat)

  function Initial<S(!new)>(alg: Alg<S>): View<S> {
    View(alg.init, [], 0)
  }

  /** Taking in data: whole blocks are compressed and the rest waits. */
  ghost function Absorb<S(!new)>(alg: Alg<S>, v: View<S>, data: seq<byte>): View<S>
    requires alg.Valid()
  {
    var d := v.pending + data;
    var tail := Tail(alg.blockSize, d);
    View(Fold(alg.compress, v.state, Blocks(alg.blockSize, d)), tail, (v.length + 8 * (|d| - |tail|)) % TWO_TO_64)
  }

  /** The chaining value after done has padded and compressed what was waiting. */
  ghost function Finish<S(!new)>(alg: Alg<S>, v: View<S>): S
    requires alg.Valid() && |v.pending| < alg.blockSize
  {
    var length := (v.length + 8 * |v.pending|) % TWO_TO_64;
    Fold(alg.compress, v.state, Blocks(alg.blockSize, v.pending + Suffix(alg, |v.pending|, length)))
  }

  lemma CountTwice(length: nat, a: nat, b: nat)
    ensures ((length + a) % TWO_TO_64 + b) % TWO_TO_64 == (length + (a + b)) % TWO_TO_64
  {
    var c := length + a;
    assert c == TWO_TO_64 * (c / TWO_TO_64) + c % TWO_TO_64;
  }

  /** Taking in x and then y is taking in x + y. */
  lemma AbsorbTwice<S(!new)>(alg: Alg<S>, v: View<S>, x: seq<byte>, y: seq<byte>)
    requires alg.Valid()
    ensures Absorb(alg, Absorb(alg, v, x), y) == Absorb(alg, v, x + y)
  {
    hide Fold, Blocks, Tail;
    var n, d := alg.blockSize, v.pending + x;
    var e := Tail(n, d) + y;
    assert d + y == v.pending + (x + y);
    CutInTwo(n, d, y);
    FoldAppend(alg.compress, v.state, Blocks(n, d), Blocks(n, e));
    CountTwice(v.length, 8 * (|d| - |Tail(n, d)|), 8 * (|e| - |Tail(n, e)|));
  }

  /** Finishing after a whole message is the one-shot definition. */
  lemma FinishIsChain<S(!new)>(alg: Alg<S>, message: seq<byte>)
    requires alg.Valid()
    ensures var v := Absorb(alg, Initial(alg), message);
            |v.pending| < alg.blockSize && Finish(alg, v) == Chain(alg, message)
  {
    hide Fold, Blocks, Tail, Suffix;
    var n := alg.blockSize;
    assert [] + message == message;
    var tail := Tail(n, message);
    TailLength(alg, message);
    CountTwice(0, 8 * (|message| - |tail|), 8 * |tail|);
    CutInTwo(n, message, Pad(alg, |message|));
    FoldAppend(alg.compress, alg.init, Blocks(n, message), Blocks(n, tail + Pad(alg, |message|)));
  }

  /** Data may be moved to the buffer before it is taken in. */
  lemma MoveToBuffer<S(!new)>(alg: Alg<S>, v: View<S>, x: seq<byte>, y: seq<byte>)
    requires alg.Valid()
    ensures Absorb(alg, v.(pending := v.pending + x), y) == Absorb(alg, v, x + y)
  {
    assert (v.pending + x) + y == v.pending + (x + y);
  }

  ghost function CompressBuffer<S(!new)>(alg: Alg<S>, v: View<S>): View<S> {
    View(alg.compress(v.state, v.pending), [], (v.length + 8 * alg.blockSize) % TWO_TO_64)
  }

  /** A full buffer may be compressed before more is taken in. */
  lemma FullBuffer<S(!new)>(alg: Alg<S>, v: View<S>, y: seq<byte>)
    requires alg.Valid() && |v.pending| == alg.blockSize
    ensures Absorb(alg, CompressBuffer(alg, v), y) == Absorb(alg, v, y)
  {
    hide Fold;
    var n, d := alg.blockSize, v.pending + y;
    assert d[..n] == v.pending && d[n..] == y;
    assert [] + y == y;
    OneStep(alg.compress, v.state, v.pending);
    FoldAppend(alg.compress, v.state, [v.pending], Blocks(n, y));
    CountTwice(v.length, 8 * n, 8 * (|y| - |Tail(n, y)|));
  }

  lemma OneStep<S, M>(step: (S, M) -> S, s: S, m: M)
    ensures Fold(step, s, [m]) == step(s, m)
  {
    FoldNext(step, s, [m], 0);
    assert [m][..1] == [m];
  }

  /** A block may be compressed straight from the input when nothing is waiting. */
  lemma BlockAtOnce<S(!new)>(alg: Alg<S>, v: View<S>, data: seq<byte>)
    requires alg.Valid() && v.pending == [] && |data| >= alg.blockSize
    ensures var n := alg.blockSize;
            Absorb(alg, CompressBuffer(alg, v.(pending := data[..n])), data[n..]) == Absorb(alg, v, data)
  {
    hide Absorb;
    var x, y := data[..alg.blockSize], data[alg.blockSize..];
    assert x + y == data && v.pending + x == x;
    MoveToBuffer(alg, v, x, y);
    FullBuffer(alg, v.(pending := x), y);
  }

  /** A buffer that is not full is all that is waiting. */
  lemma NothingToDo<S(!new)>(alg: Alg<S>, v: View<S>)
    requires alg.Valid() && |v.pending| < alg.blockSize && v.length < TWO_TO_64
    ensures Absorb(alg, v, []) == v
  {
    assert v.pending + [] == v.pending;
  }

  /** Byte k of a 64-bit number, the least significant being byte 0: the number shifted right by 8 * k bits, as a
      quotient, and then its low byte. */
  function ByteAt(x: nat, k: nat): byte {
    LowByte(Shifted(x, k))
  }

  lemma {:induction false} EncodedByteAt(k: nat, x: nat, i: nat)
    requires i < k
    ensures BigEndian(k, x)[i] == ByteAt(x, k - 1 - i)
    ensures LittleEndian(k, x)[i] == ByteAt(x, i)
    decreases k
  {
    hide LowByte;
    if i < k - 1 {
      EncodedByteAt(k - 1, x / 256, i);
    }
    if i > 0 {
      EncodedByteAt(k - 1, x / 256, i - 1);
    }
  }

  lemma EightBytes(x: nat)
    ensures BigEndian(8, x) == [ByteAt(x, 7), ByteAt(x, 6), ByteAt(x, 5), ByteAt(x, 4),
                                ByteAt(x, 3), ByteAt(x, 2), ByteAt(x, 1), ByteAt(x, 0)]
    ensures LittleEndian(8, x) == [ByteAt(x, 0), ByteAt(x, 1), ByteAt(x, 2), ByteAt(x, 3),
                                   ByteAt(x, 4), ByteAt(x, 5), ByteAt(x, 6), ByteAt(x, 7)]
  {
    hide BigEndian, LittleEndian, ByteAt;
    forall i | 0 <= i < 8 ensures BigEndian(8, x)[i] == ByteAt(x, 7 - i) && LittleEndian(8, x)[i] == ByteAt(x, i) {
      EncodedByteAt(8, x, i);
    }
  }

  /** The one or two compressions of done, as done fills the buffer for them once the byte 0x80 is in it. */
  ghost function PaddedState<S(!new)>(alg: Alg<S>, state: S, head: seq<byte>, length: nat): S
    requires alg.Valid() && |head| <= alg.blockSize
  {
    var n := alg.blockSize;
    if |head| > n - alg.lengthSize then
      alg.compress(alg.compress(state, head + Zeros(n - |head|)), LastPadded(alg, [], length))
    else
      alg.compress(state, LastPadded(alg, head, length))
  }

  /** The block that ends in the length. */
  ghost function LastPadded<S(!new)>(alg: Alg<S>, head: seq<byte>, length: nat): seq<byte>
    requires alg.Valid() && |head| <= alg.blockSize - 8
  {
    head + Zeros(alg.blockSize - 8 - |head|) + StoreLength(alg.bigEndian, length)
  }

  lemma PadInPlace<S(!new)>(alg: Alg<S>, v: View<S>, length: nat)
    requires alg.Valid() && |v.pending| < alg.blockSize
    requires length == (v.length + 8 * |v.pending|) % TWO_TO_64
    ensures PaddedState(alg, v.state, v.pending + [0x80], length) == Finish(alg, v)
  {
    hide Fold, StoreLength;
    var n, head := alg.blockSize, v.pending + [0x80];
    var all := v.pending + Suffix(alg, |v.pending|, length);
    if |head| > n - alg.lengthSize {
      var b1, b2 := head + Zeros(n - |head|), LastPadded(alg, [], length);
      assert all == b1 + b2;
      TwoBlocks(n, b1, b2);
      OneStep(alg.compress, v.state, b1);
      FoldAppend(alg.compress, v.state, [b1], [b2]);
      OneStep(alg.compress, alg.compress(v.state, b1), b2);
    } else {
      var b := LastPadded(alg, head, length);
      assert all == b;
      TwoBlocks(n, b, b);
      OneStep(alg.compress, v.state, b);
    }
  }

  lemma TwoBlocks(n: nat, b1: seq<byte>, b2: seq<byte>)
    requires n > 0 && |b1| == |b2| == n
    ensures Blocks(n, b1) == [b1] && Blocks(n, b1 + b2) == [b1] + [b2]
  {
    assert b1[..n] == b1 && b1[n..] == [];
    assert (b1 + b2)[..n] == b1 && (b1 + b2)[n..] == b2;
    assert b2[..n] == b2 && b2[n..] == [];
  }

  /** The state of a hash in progress (the sha256, sha512, sha1, md5 and rmd160 members of hash_state). */
  class Md<S(!new)> {
    const alg: Alg<S>
    const buf: array<byte>
    var state: S
    var curlen: nat
    var length: nat

    ghost predicate Valid()
      reads this
    {
      alg.Valid() && buf.Length == alg.blockSize && length < TWO_TO_64
    }

    ghost function Abs(): View<S>
      requires Valid() && curlen <= buf.Length
      reads this, buf
    {
      View(state, buf[..curlen], length)
    }

    /** The init functions. */
    constructor (alg: Alg<S>)
      requires alg.Valid()
      ensures this.alg == alg && fresh(buf) && Valid() && curlen == 0 && Abs() == Initial(alg)
    {
      this.alg := alg;
      buf := new byte[alg.blockSize];
      state, curlen, length := alg.init, 0, 0;
    }

    /** The memcpy into the buffer. */
    method CopyIn(chunk: seq<byte>)
      requires Valid() && curlen + |chunk| <= buf.Length
      modifies this`curlen, buf
      ensures Valid() && curlen == old(curlen) + |chunk|
      ensures Abs() == old(Abs()).(pending := old(Abs()).pending + chunk)
    {
      forall i | 0 <= i < |chunk| {
        buf[curlen + i] := chunk[i];
      }
      curlen := curlen + |chunk|;
    }

    /** Compression of a block, from the input or from the buffer, which is empty afterwards. */
    method CompressBlock(block: seq<byte>)
      requires Valid()
      modifies this
      ensures Valid() && curlen == 0
      ensures Abs() == CompressBuffer(alg, View(old(state), block, old(length)))
    {
      state := alg.compress(state, block);
      length := (length + 8 * alg.blockSize) % TWO_TO_64;
      curlen := 0;
    }

    /** One turn of the loop of HASH_PROCESS: a block is compressed straight from the input, or bytes are
        moved to the buffer, which is compressed if that fills it. */
    method Turn(data: seq<byte>) returns (rest: seq<byte>)
      requires Valid() && curlen <= buf.Length && data != []
      modifies this, buf
      ensures Valid() && curlen < buf.Length
      ensures |rest| < |data| || (rest == data && curlen < old(curlen))
      ensures Absorb(alg, Abs(), rest) == Absorb(alg, old(Abs()), data)
    {
      hide Absorb;
      if curlen == 0 && |data| >= alg.blockSize {
        BlockAtOnce(alg, Abs(), data);
        CompressBlock(data[..alg.blockSize]);
        rest := data[alg.blockSize..];
      } else {
        var n := if |data| < alg.blockSize - curlen then |data| else alg.blockSize - curlen;
        rest := data[n..];
        assert data[..n] + rest == data;
        MoveToBuffer(alg, Abs(), data[..n], rest);
        CopyIn(data[..n]);
        if curlen == alg.blockSize {
          FullBuffer(alg, Abs(), rest);
          assert buf[..] == buf[..curlen];
          CompressBlock(buf[..]);
        }
      }
    }

    /** HASH_PROCESS. The error is only for a buffer count that no run of calls reaches. */
    method Process(data: seq<byte>) returns (err: Status)
      requires Valid()
      modifies this, buf
      ensures Valid()
      ensures old(curlen) > alg.blockSize ==> err == InvalidArg && unchanged(this) && unchanged(buf)
      ensures old(curlen) <= alg.blockSize ==> err == Ok && curlen <= alg.blockSize
      ensures old(curlen) <= alg.blockSize && data == [] ==> Abs() == old(Abs())
      ensures old(curlen) <= alg.blockSize && data != [] ==> Abs() == Absorb(alg, old(Abs()), data)
      ensures old(curlen) < alg.blockSize ==> curlen < alg.blockSize
    {
      if curlen > buf.Length {
        return InvalidArg;
      }
      hide Absorb;
      var rest := data;
      while |rest| > 0
        invariant Valid() && curlen <= buf.Length
        invariant data == [] ==> Abs() == old(Abs()) && rest == []
        invariant curlen == buf.Length ==> rest == data && curlen == old(curlen)
        invariant Absorb(alg, Abs(), rest) == Absorb(alg, old(Abs()), data)
        decreases |rest|, curlen
      {
        rest := Turn(rest);
      }
      if data != [] {
        NothingToDo(alg, Abs());
      }
      err := Ok;
    }

    /** The loops of done that append zeros. */
    method FillZeros(end: nat)
      requires Valid() && curlen <= end <= buf.Length
      modifies this`curlen, buf
      ensures Valid() && curlen == end
      ensures buf[..end] == old(buf[..curlen]) + Zeros(end - old(curlen))
    {
      while curlen < end
        invariant old(curlen) <= curlen <= end
        invariant buf[..curlen] == old(buf[..curlen]) + Zeros(curlen - old(curlen))
      {
        buf[curlen] := 0;
        curlen := curlen + 1;
        assert buf[..curlen] == buf[..curlen - 1] + [0];
      }
    }

    /** Writes eight bytes at the end of the buffer. */
    method StoreAtEnd(bytes: seq<byte>)
      requires Valid() && |bytes| == 8
      modifies buf
      ensures buf[..] == old(buf[..buf.Length - 8]) + bytes
    {
      forall i | 0 <= i < 8 {
        buf[buf.Length - 8 + i] := bytes[i];
      }
    }

    /** STORE64H or STORE64L of the length at the end of the buffer. */
    method StoreLengthField()
      requires Valid()
      modifies buf
      ensures buf[..] == old(buf[..buf.Length - 8]) + StoreLength(alg.bigEndian, length)
    {
      hide ByteAt, BigEndian, LittleEndian;
      EightBytes(length);
      if alg.bigEndian {
        StoreAtEnd([ByteAt(length, 7), ByteAt(length, 6), ByteAt(length, 5), ByteAt(length, 4),
                    ByteAt(length, 3), ByteAt(length, 2), ByteAt(length, 1), ByteAt(length, 0)]);
      } else {
        StoreAtEnd([ByteAt(length, 0), ByteAt(length, 1), ByteAt(length, 2), ByteAt(length, 3),
                    ByteAt(length, 4), ByteAt(length, 5), ByteAt(length, 6), ByteAt(length, 7)]);
      }
    }

    /** The last block: zeros, the length, and the compression. */
    method FinalBlock()
      requires Valid() && curlen <= alg.blockSize - 8
      modifies this`curlen, this`state, buf
      ensures Valid() && curlen == alg.blockSize - 8
      ensures state == alg.compress(old(state), LastPadded(alg, old(buf[..curlen]), length))
    {
      FillZeros(alg.blockSize - 8);
      StoreLengthField();
      state := alg.compress(state, buf[..]);
    }

    /** The blocks that are left once the byte 0x80 is in the buffer. */
    method PadHead()
      requires Valid() && curlen <= buf.Length
      modifies this`curlen, this`state, buf
      ensures Valid() && curlen == alg.blockSize - 8
      ensures state == PaddedState(alg, old(state), old(buf[..curlen]), length)
    {
      hide Zeros, LastPadded;
      if curlen > alg.blockSize - alg.lengthSize {
        FillZeros(alg.blockSize);
        assert buf[..] == buf[..alg.blockSize];
        state := alg.compress(state, buf[..]);
        curlen := 0;
        assert buf[..0] == [];
      }
      FinalBlock();
    }

    /** The padding part of done: over one block or two, in place. */
    method PadBuffer()
      requires Valid() && curlen < buf.Length
      modifies this, buf
      ensures Valid() && curlen == alg.blockSize - 8
      ensures length == (old(length) + 8 * old(curlen)) % TWO_TO_64
      ensures state == Finish(alg, old(Abs()))
    {
      hide Finish, PaddedState;
      ghost var v := Abs();
      length := (length + curlen * 8) % TWO_TO_64;
      PadInPlace(alg, v, length);
      buf[curlen] := 0x80;
      curlen := curlen + 1;
      assert buf[..curlen] == v.pending + [0x80];
      PadHead();
    }

    /** The done functions. */
    method Done(out: array<byte>) returns (err: Status)
      requires Valid() && out.Length >= alg.digestSize && out != buf
      modifies this, buf, out
      ensures Valid()
      ensures old(curlen) >= alg.blockSize ==> err == InvalidArg && unchanged(this) && unchanged(buf) && unchanged(out)
      ensures old(curlen) < alg.blockSize ==> err == Ok && curlen == alg.blockSize - 8
      ensures old(curlen) < alg.blockSize ==> length == (old(length) + 8 * old(curlen)) % TWO_TO_64
      ensures old(curlen) < alg.blockSize ==> state == Finish(alg, old(Abs()))
      ensures old(curlen) < alg.blockSize ==> out[..] == alg.digest(state) + old(out[alg.digestSize..])
    {
      if curlen >= buf.Length {
        return InvalidArg;
      }
      hide Finish;
      PadBuffer();
      var d := alg.digest(state);
      for i := 0 to alg.digestSize
        modifies out
        invariant forall j :: 0 <= j < i ==> out[j] == d[j]
        invariant forall j :: i <= j < out.Length ==> out[j] == old(out[j])
      {
        out[i] := d[i];
      }
      err := Ok;
    }
  }

  /** A run of process calls: none fails, and together they take in the concatenation of the chunks. */
  method ProcessAll<S(!new)>(md: Md<S>, chunks: seq<seq<byte>>) returns (failed: bool)
    requires md.Valid() && md.curlen < md.buf.Length
    modifies md, md.buf
    ensures md.Valid() && md.curlen < md.buf.Length && !failed
    ensures md.Abs() == Absorb(md.alg, old(md.Abs()), Concat(chunks))
  {
    hide Absorb;
    failed := false;
    NothingToDo(md.alg, md.Abs());
    for i := 0 to |chunks|
      invariant md.Valid() && !failed && md.curlen < md.buf.Length
      invariant md.Abs() == Absorb(md.alg, old(md.Abs()), Concat(chunks[..i]))
    {
      AbsorbTwice(md.alg, old(md.Abs()), Concat(chunks[..i]), chunks[i]);
      NothingToDo(md.alg, md.Abs());
      assert chunks[..i + 1][..i] == chunks[..i];
      var err := md.Process(chunks[i]);
      failed := failed || err != Ok;
    }
    assert chunks[..|chunks|] == chunks;
  }

  /** init, process for every chunk, done: no call fails, and the digest is the one-shot hash of the whole
      message however it was cut. */
  method HashChunks<S(!new)>(alg: Alg<S>, chunks: seq<seq<byte>>) returns (digest: seq<byte>, failed: bool)
    requires alg.Valid()
    ensures !failed && digest == Hash(alg, Concat(chunks))
  {
    hide Absorb, Finish, Chain;
    var md := new Md(alg);
    failed := ProcessAll(md, chunks);
    FinishIsChain(alg, Concat(chunks));
    var out := new byte[alg.digestSize];
    var err := md.Done(out);
    failed := failed || err != Ok;
    digest := out[..];
  }
}
