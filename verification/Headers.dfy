/** read_requesthdrs of the server: it reads lines until one is blank, and so comes to an end exactly if one is. */
module Headers {
  import opened Rio

  const MAXLINE := 8192
  const BLANK := "\r\n"

  /** What a line buffer that held buf holds after k calls of rio_readlineb from position p on. A call that finds
      nothing to read leaves it as it was. */
  function BufferAfter(d: seq<char>, p: nat, buf: seq<char>, k: nat): seq<char>
    requires p <= |d|
    decreases k
  {
    if k == 0 then buf
    else
      var end := LineEnd(d, p, MAXLINE - 1);
      BufferAfter(d, end, if end == p then buf else d[p..end], k - 1)
  }

  /** The test of the loop fails after some call. */
  ghost predicate LoopEnds(d: seq<char>, p: nat, buf: seq<char>)
    requires p <= |d|
  {
    exists k: nat :: k > 0 && BufferAfter(d, p, buf, k) == BLANK
  }

  lemma {:induction false} BlankWasRead(d: seq<char>, p: nat, buf: seq<char>, k: nat)
    requires p <= |d| && BufferAfter(d, p, buf, k) == BLANK
    ensures buf == BLANK || BLANK in Lines(d, p, MAXLINE)
    decreases k
  {
    var end := LineEnd(d, p, MAXLINE - 1);
    if k > 0 {
      BlankWasRead(d, end, if end == p then buf else d[p..end], k - 1);
    }
  }

  lemma {:induction false} BlankIsRead(d: seq<char>, p: nat, buf: seq<char>) returns (k: nat)
    requires p <= |d| && BLANK in Lines(d, p, MAXLINE)
    ensures k > 0 && BufferAfter(d, p, buf, k) == BLANK
    decreases |d| - p
  {
    var end := LineEnd(d, p, MAXLINE - 1);
    if d[p..end] == BLANK {
      k := 1;
      assert BufferAfter(d, end, BLANK, 0) == BLANK;
    } else {
      k := BlankIsRead(d, end, d[p..end]);
      k := k + 1;
    }
  }

  /** The loop ends if and only if one of the lines left is blank, or nothing is left and the buffer, which the code does
      not set, happens to hold a blank line. */
  lemma EndsAtBlankLine(d: seq<char>, p: nat, buf: seq<char>)
    requires p <= |d|
    ensures LoopEnds(d, p, buf) <==> "\r\n" in Lines(d, p, 8192) || (p == |d| && buf == "\r\n")
  {
    LineShape(d, p, MAXLINE - 1);
    var end := LineEnd(d, p, MAXLINE - 1);
    if LoopEnds(d, p, buf) {
      var k: nat :| k > 0 && BufferAfter(d, p, buf, k) == BLANK;
      BlankWasRead(d, end, if end == p then buf else d[p..end], k - 1);
    }
    if BLANK in Lines(d, p, MAXLINE) {
      var k := BlankIsRead(d, p, buf);
    } else if p == |d| && buf == BLANK {
      assert BufferAfter(d, p, buf, 0) == BLANK;
      assert BufferAfter(d, p, buf, 1) == BLANK;
    }
  }

  /** A client that sends a request line and nothing more before it closes: the loop never ends. */
  lemma ClosedEarly(buf: seq<char>)
    requires buf != BLANK
    ensures var d := "GET / HTTP/1.0\r\n";
            LineEnd(d, 0, MAXLINE - 1) == |d| && !LoopEnds(d, |d|, buf)
  {
    var d := "GET / HTTP/1.0\r\n";
    LineShape(d, 0, MAXLINE - 1);
    EndsAtBlankLine(d, |d|, buf);
    LineShape(d, |d|, MAXLINE - 1);
  }

  /** The position after k calls. */
  function AfterCalls(d: seq<char>, p: nat, k: nat): (q: nat)
    requires p <= |d|
    ensures p <= q <= |d|
    decreases k
  {
    if k == 0 then p else AfterCalls(d, LineEnd(d, p, MAXLINE - 1), k - 1)
  }

  lemma {:induction false} OneMore(d: seq<char>, p: nat, buf: seq<char>, k: nat)
    requires p <= |d|
    ensures var q := AfterCalls(d, p, k);
            var end := LineEnd(d, q, MAXLINE - 1);
            && AfterCalls(d, p, k + 1) == end
            && BufferAfter(d, p, buf, k + 1) == if end == q then BufferAfter(d, p, buf, k) else d[q..end]
    decreases k
  {
    if k > 0 {
      var end := LineEnd(d, p, MAXLINE - 1);
      OneMore(d, end, if end == p then buf else d[p..end], k - 1);
    }
  }

  lemma BlankAhead(d: seq<char>, q: nat)
    requires q <= |d| && BLANK in Lines(d, q, MAXLINE)
    ensures var end := LineEnd(d, q, MAXLINE - 1);
            end > q && (d[q..end] == BLANK || BLANK in Lines(d, end, MAXLINE))
  {
    LineShape(d, q, MAXLINE - 1);
  }

  /** One call of rio_readlineb on a buffer that held buf. */
  method Fetch(rp: Reader, buf: seq<char>) returns (buf': seq<char>)
    requires rp.Valid() && NoFailure(rp.rio_fd.script)
    modifies rp, rp.rio_buf, rp.rio_fd
    ensures rp.Valid() && NoFailure(rp.rio_fd.script)
    ensures old(rp.Pos()) <= rp.Pos() == LineEnd(rp.rio_fd.data, old(rp.Pos()), MAXLINE - 1)
    ensures buf' == if rp.Pos() == old(rp.Pos()) then buf else rp.rio_fd.data[old(rp.Pos())..rp.Pos()]
  {
    LineShape(rp.rio_fd.data, rp.Pos(), MAXLINE - 1);
    hide LineEnd, NoFailure;
    var r, line := OneLine(rp, MAXLINE);
    buf' := if r == 0 then buf else line;
  }

  /** After so many calls, none of which but perhaps the last found a blank line, the position is q and the buffer holds
      current; a blank line is there or to come. */
  ghost predicate At(d: seq<char>, p: nat, buf: seq<char>, calls: nat, q: nat, current: seq<char>) {
    && p <= |d| && q <= |d| && calls > 0
    && current == BufferAfter(d, p, buf, calls) && q == AfterCalls(d, p, calls)
    && (forall k :: 0 < k < calls ==> BufferAfter(d, p, buf, k) != BLANK)
    && (current == BLANK || BLANK in Lines(d, q, MAXLINE))
  }

  lemma AtFirst(d: seq<char>, p: nat, buf: seq<char>)
    requires p <= |d| && LoopEnds(d, p, buf)
    ensures var end := LineEnd(d, p, MAXLINE - 1);
            At(d, p, buf, 1, end, if end == p then buf else d[p..end])
  {
    EndsAtBlankLine(d, p, buf);
    OneMore(d, p, buf, 0);
    if BLANK in Lines(d, p, MAXLINE) {
      BlankAhead(d, p);
    }
  }

  lemma AtNext(d: seq<char>, p: nat, buf: seq<char>, calls: nat, q: nat, current: seq<char>)
    requires At(d, p, buf, calls, q, current) && current != BLANK
    ensures var end := LineEnd(d, q, MAXLINE - 1);
            end > q && At(d, p, buf, calls + 1, end, d[q..end])
  {
    BlankAhead(d, q);
    OneMore(d, p, buf, calls);
    hide LineEnd, Lines;
  }

  lemma AtEnd(d: seq<char>, p: nat, buf: seq<char>, calls: nat, q: nat)
    requires At(d, p, buf, calls, q, BLANK)
    ensures calls > 0 && p <= |d| && BufferAfter(d, p, buf, calls) == BLANK && q == AfterCalls(d, p, calls)
    ensures forall k :: 0 < k < calls ==> BufferAfter(d, p, buf, k) != BLANK
  {}

  /** The loop, on data for which it ends: it stops right after the first blank line. */
  method ReadRequestHdrs(rp: Reader, buf: seq<char>) returns (calls: nat)
    requires rp.Valid() && NoFailure(rp.rio_fd.script)
    requires LoopEnds(rp.rio_fd.data, rp.Pos(), buf)
    modifies rp, rp.rio_buf, rp.rio_fd
    ensures rp.Valid() && NoFailure(rp.rio_fd.script)
    ensures calls > 0 && BufferAfter(rp.rio_fd.data, old(rp.Pos()), buf, calls) == BLANK
    ensures forall k :: 0 < k < calls ==> BufferAfter(rp.rio_fd.data, old(rp.Pos()), buf, k) != BLANK
    ensures rp.Pos() == AfterCalls(rp.rio_fd.data, old(rp.Pos()), calls)
  {
    ghost var d, p := rp.rio_fd.data, rp.Pos();
    AtFirst(d, p, buf);
    hide LineEnd, Lines, BufferAfter, AfterCalls, LoopEnds, NoFailure, At, Reader.Valid, Reader.Pos;
    var current := Fetch(rp, buf);
    calls := 1;
    while current != BLANK
      invariant rp.Valid() && NoFailure(rp.rio_fd.script)
      invariant At(d, p, buf, calls, rp.Pos(), current)
      decreases |d| - rp.Pos()
    {
      AtNext(d, p, buf, calls, rp.Pos(), current);
      current := Fetch(rp, current);
      calls := calls + 1;
    }
    AtEnd(d, p, buf, calls, rp.Pos());
  }
}
