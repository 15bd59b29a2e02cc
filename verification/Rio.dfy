/** The Rio package of csapp.c: reading and writing whole buffers and lines although the kernel transfers
    fewer bytes than asked for and signals interrupt calls. */
module Rio {
  import opened Folds

  const RIO_BUFSIZE := 8192
  const NEWLINE := '\n'
  const NUL := '\0'

  /** What the kernel does with one call: at most this many bytes (but at least one), EINTR, or a hard error. */
  datatype Event = Short(most: nat) | Interrupted | Failed

  datatype Errno = EINTR | EOTHER

  datatype Response = Response(n: int, errno: Errno)

  function Min(a: nat, b: nat): nat { if a < b then a else b }

  /** The result of a call that asks for count bytes when size are there: how many it moves, or -1. After the
      script every call moves all it can. */
  function Respond(script: seq<Event>, count: nat, size: nat): (r: Response)
    ensures -1 <= r.n <= Min(count, size)
    ensures r.n == 0 ==> count == 0 || size == 0
  {
    if script == [] then Response(Min(count, size), EOTHER)
    else match script[0]
      case Short(most) => Response(Min(Min(count, size), if most == 0 then 1 else most), EOTHER)
      case Interrupted => Response(-1, EINTR)
      case Failed => Response(-1, EOTHER)
  }

  function Next(script: seq<Event>): seq<Event> {
    if script == [] then [] else script[1..]
  }

  ghost predicate NoFailure(script: seq<Event>) {
    forall i :: 0 <= i < |script| ==> !script[i].Failed?
  }

  /** The script has been followed from all to rest, and no call failed hard, except the last one if failed. */
  ghost predicate Served(all: seq<Event>, rest: seq<Event>, failed: bool) {
    && |rest| <= |all| && rest == all[|all| - |rest|..]
    && (failed ==> |rest| < |all| && all[|all| - |rest| - 1].Failed?)
    && forall i :: 0 <= i < |all| - |rest| - (if failed then 1 else 0) ==> !all[i].Failed?
  }

  lemma ServedNone(all: seq<Event>)
    ensures Served(all, all, false)
  {}

  lemma ServedOnce(all: seq<Event>, rest: seq<Event>)
    requires Served(all, rest, false)
    ensures Served(all, Next(rest), rest != [] && rest[0].Failed?)
  {}

  lemma ServedTwice(all: seq<Event>, middle: seq<Event>, rest: seq<Event>, failed: bool)
    requires Served(all, middle, false) && Served(middle, rest, failed)
    ensures Served(all, rest, failed)
  {
    forall i | |all| - |middle| <= i < |all| ensures all[i] == middle[i - (|all| - |middle|)] {}
  }

  lemma ServedWell(all: seq<Event>, rest: seq<Event>, failed: bool)
    requires Served(all, rest, failed)
    ensures NoFailure(all) ==> !failed && NoFailure(rest)
  {}

  /** The script from the first call on that is not interrupted. */
  function SkipInterrupts(script: seq<Event>): seq<Event> {
    if script != [] && script[0].Interrupted? then SkipInterrupts(script[1..]) else script
  }

  /** A refill makes one call after those that are interrupted, for a whole buffer of the size bytes that there are. */
  ghost predicate IsRefill(script: seq<Event>, size: nat, cnt: int, rest: seq<Event>) {
    && cnt == Respond(SkipInterrupts(script), 8192, size).n
    && rest == Next(SkipInterrupts(script))
  }

  lemma RefillOnce(script: seq<Event>, size: nat, now: seq<Event>)
    requires SkipInterrupts(now) == SkipInterrupts(script)
    ensures if now != [] && now[0].Interrupted? then SkipInterrupts(Next(now)) == SkipInterrupts(script)
            else IsRefill(script, size, Respond(now, RIO_BUFSIZE, size).n, Next(now))
  {}

  /** A descriptor open for reading: all its bytes, how many have been read, and what the kernel will do. */
  class Source {
    const data: seq<char>
    var pos: nat
    var script: seq<Event>

    ghost predicate Valid()
      reads this
    {
      pos <= |data|
    }

    /** read(2) into buf[at..at + count]. */
    method Read(buf: array<char>, at: nat, count: nat) returns (n: int, errno: Errno)
      requires Valid() && at + count <= buf.Length
      modifies this, buf
      ensures Valid() && Response(n, errno) == Respond(old(script), count, |data| - old(pos))
      ensures script == Next(old(script)) && pos == old(pos) + (if n < 0 then 0 else n)
      ensures forall i :: at <= i < at + n ==> buf[i] == data[old(pos) + i - at]
      ensures forall i :: 0 <= i < buf.Length && !(at <= i < at + n) ==> buf[i] == old(buf[i])
    {
      var response := Respond(script, count, |data| - pos);
      n, errno := response.n, response.errno;
      if n >= 0 {
        forall i | 0 <= i < n {
          buf[at + i] := data[pos + i];
        }
        pos := pos + n;
      }
      script := Next(script);
    }
  }

  /** rio_readn: unbuffered. It delivers what was asked for, or all there is; after a hard error the result is
      -1, and got bytes were delivered before it. */
  method RioReadn(fd: Source, usrbuf: array<char>, n: nat) returns (r: int, ghost got: nat)
    requires fd.Valid() && n <= usrbuf.Length
    modifies fd, usrbuf
    ensures fd.Valid() && fd.pos == old(fd.pos) + got && got <= n
    ensures r == if r < 0 then -1 else Min(n, |fd.data| - old(fd.pos))
    ensures r >= 0 ==> got == r
    ensures Served(old(fd.script), fd.script, r < 0) && (r < 0 ==> got < n)
    ensures NoFailure(old(fd.script)) ==> r >= 0 && NoFailure(fd.script)
    ensures forall i :: 0 <= i < got ==> usrbuf[i] == fd.data[old(fd.pos) + i]
    ensures forall i :: got <= i < usrbuf.Length ==> usrbuf[i] == old(usrbuf[i])
  {
    hide NoFailure, Served;
    ghost var script := fd.script;
    ServedNone(script);
    var nleft: nat, bufp: nat := n, 0;
    while nleft > 0
      invariant fd.Valid() && nleft + bufp == n && fd.pos == old(fd.pos) + bufp
      invariant Served(script, fd.script, false)
      invariant forall i :: 0 <= i < bufp ==> usrbuf[i] == fd.data[old(fd.pos) + i]
      invariant forall i :: bufp <= i < usrbuf.Length ==> usrbuf[i] == old(usrbuf[i])
      decreases nleft, |fd.script|
    {
      ServedOnce(script, fd.script);
      var nread, errno := fd.Read(usrbuf, bufp, nleft);
      if nread < 0 {
        if errno == EINTR {
          nread := 0;
        } else {
          ServedWell(script, fd.script, true);
          return -1, bufp;
        }
      } else if nread == 0 {
        break;
      }
      nleft := nleft - nread;
      bufp := bufp + nread;
    }
    ServedWell(script, fd.script, false);
    r, got := n - nleft, bufp;
  }

  /** What the kernel does with one write: takes at most this many bytes (but at least one), EINTR, a hard error, or
      nothing at all, which is no error. */
  datatype Reception = Taken(most: nat) | Broken | Refused | Nothing

  /** The result of a write of count bytes, and errno after it, which stays as it was unless the write fails. */
  function Receive(script: seq<Reception>, count: nat, errno: Errno): (r: Response)
    ensures -1 <= r.n <= count
  {
    if script == [] then Response(count, errno)
    else match script[0]
      case Taken(most) => Response(Min(count, if most == 0 then 1 else most), errno)
      case Broken => Response(-1, EINTR)
      case Refused => Response(-1, EOTHER)
      case Nothing => Response(0, errno)
  }

  ghost predicate NoRefusal(script: seq<Reception>) {
    forall i :: 0 <= i < |script| ==> !script[i].Refused? && !script[i].Nothing?
  }

  /** errno after the first k calls of the script. */
  function ErrnoAfter(script: seq<Reception>, k: nat, errno: Errno): Errno
    requires k <= |script|
  {
    if k == 0 then errno
    else match script[k - 1]
      case Broken => EINTR
      case Refused => EOTHER
      case _ => ErrnoAfter(script, k - 1, errno)
  }

  /** Call k of the script ends the writing: it fails, or it takes nothing when the last error was not EINTR. */
  predicate Stops(script: seq<Reception>, k: nat, errno: Errno)
    requires k < |script|
  {
    script[k].Refused? || (script[k].Nothing? && ErrnoAfter(script, k, errno) != EINTR)
  }

  /** The script has been followed from all to rest, and no call ended the writing, except the last one if failed. */
  ghost predicate Accepted(all: seq<Reception>, rest: seq<Reception>, errno: Errno, failed: bool) {
    && |rest| <= |all| && rest == all[|all| - |rest|..]
    && (failed ==> |rest| < |all| && Stops(all, |all| - |rest| - 1, errno))
    && forall i :: 0 <= i < |all| - |rest| - (if failed then 1 else 0) ==> !Stops(all, i, errno)
  }

  lemma AcceptedNone(all: seq<Reception>, errno: Errno)
    ensures Accepted(all, all, errno, false) && ErrnoAfter(all, |all| - |all|, errno) == errno
  {}

  /** One more write of count bytes. */
  lemma AcceptedOnce(all: seq<Reception>, rest: seq<Reception>, errno: Errno, now: Errno, count: nat)
    requires Accepted(all, rest, errno, false) && now == ErrnoAfter(all, |all| - |rest|, errno) && count > 0
    ensures var response, rest' := Receive(rest, count, now), if rest == [] then [] else rest[1..];
            && Accepted(all, rest', errno, response.n <= 0 && response.errno != EINTR)
            && response.errno == ErrnoAfter(all, |all| - |rest'|, errno)
  {
    if rest != [] {
      assert all[|all| - |rest|] == rest[0];
    }
  }

  lemma AcceptedWell(all: seq<Reception>, rest: seq<Reception>, errno: Errno, failed: bool)
    requires Accepted(all, rest, errno, failed)
    ensures NoRefusal(all) ==> !failed && NoRefusal(rest)
  {}

  /** A descriptor open for writing. */
  class Sink {
    var written: seq<char>
    var script: seq<Reception>
    var errno: Errno

    /** write(2) of buf[at..at + count]. */
    method Write(buf: array<char>, at: nat, count: nat) returns (n: int)
      requires at + count <= buf.Length
      modifies this
      ensures Response(n, errno) == Receive(old(script), count, old(errno))
      ensures script == if old(script) == [] then [] else old(script)[1..]
      ensures written == old(written) + (if n < 0 then [] else buf[at..at + n])
    {
      var response := Receive(script, count, errno);
      n, errno := response.n, response.errno;
      if n >= 0 {
        written := written + buf[at..at + n];
      }
      script := if script == [] then [] else script[1..];
    }
  }

  /** rio_writen: all n bytes are written, in order, unless a write fails or takes nothing; then some front part of them
      is. A write that takes nothing is tried again if the last error was EINTR. */
  method RioWriten(fd: Sink, usrbuf: array<char>, n: nat) returns (r: int, ghost put: nat)
    requires n <= usrbuf.Length
    modifies fd
    ensures put <= n && fd.written == old(fd.written) + usrbuf[..put]
    ensures r == if r < 0 then -1 else n
    ensures r >= 0 ==> put == n
    ensures Accepted(old(fd.script), fd.script, old(fd.errno), r < 0) && (r < 0 ==> put < n)
    ensures fd.errno == ErrnoAfter(old(fd.script), |old(fd.script)| - |fd.script|, old(fd.errno))
    ensures r < 0 ==> fd.errno == EOTHER && !NoRefusal(old(fd.script))
    ensures NoRefusal(old(fd.script)) ==> NoRefusal(fd.script)
  {
    hide Accepted, ErrnoAfter, NoRefusal;
    ghost var script, errno := fd.script, fd.errno;
    AcceptedNone(script, errno);
    var nleft: nat, bufp: nat := n, 0;
    while nleft > 0
      invariant nleft + bufp == n && fd.written == old(fd.written) + usrbuf[..bufp]
      invariant Accepted(script, fd.script, errno, false)
      invariant |fd.script| <= |script| && fd.errno == ErrnoAfter(script, |script| - |fd.script|, errno)
      decreases nleft, |fd.script|
    {
      AcceptedOnce(script, fd.script, errno, fd.errno, nleft);
      var nwritten := fd.Write(usrbuf, bufp, nleft);
      if nwritten <= 0 {
        if fd.errno == EINTR {
          nwritten := 0;
        } else {
          AcceptedWell(script, fd.script, errno, true);
          return -1, bufp;
        }
      }
      assert usrbuf[..bufp] + usrbuf[bufp..bufp + nwritten] == usrbuf[..bufp + nwritten];
      nleft := nleft - nwritten;
      bufp := bufp + nwritten;
    }
    AcceptedWell(script, fd.script, errno, false);
    r, put := n, bufp;
  }

  /** The end of the line that starts at p: after the first newline, but after at most limit bytes. */
  function LineEnd(d: seq<char>, p: nat, limit: int): (end: nat)
    requires p <= |d|
    ensures p <= end <= |d| && (limit >= 0 ==> end <= p + limit)
    decreases |d| - p
  {
    if p == |d| || limit <= 0 then p
    else if d[p] == NEWLINE then p + 1
    else LineEnd(d, p + 1, limit - 1)
  }

  lemma LineEndNext(d: seq<char>, p: nat, limit: int)
    requires p <= |d|
    ensures LineEnd(d, p, limit) ==
            if p == |d| || limit <= 0 then p else if d[p] == NEWLINE then p + 1 else LineEnd(d, p + 1, limit - 1)
  {}

  /** What rio_readlineb returns for the line that starts at p. */
  function LineResult(d: seq<char>, p: nat, maxlen: nat): nat
    requires p <= |d|
  {
    var end := LineEnd(d, p, maxlen - 1);
    if p == |d| && maxlen >= 2 then 0
    else if end > p && d[end - 1] == NEWLINE then end - p
    else end - p + 1
  }

  /** A buffered reader. rio_cnt is -1 after an interrupted or failed refill. */
  class Reader {
    const rio_fd: Source
    const rio_buf: array<char>
    var rio_cnt: int
    var rio_bufptr: nat

    /** What is in the internal buffer are the last bytes read from the descriptor. */
    ghost predicate Valid()
      reads this, rio_fd, rio_buf
    {
      && rio_fd.Valid() && rio_buf.Length == RIO_BUFSIZE
      && -1 <= rio_cnt <= rio_fd.pos && rio_bufptr <= RIO_BUFSIZE && rio_bufptr + rio_cnt <= RIO_BUFSIZE
      && forall i :: rio_bufptr <= i < rio_bufptr + rio_cnt
           ==> rio_buf[i] == rio_fd.data[rio_fd.pos - rio_cnt + i - rio_bufptr]
    }

    /** How many bytes of the descriptor have been delivered: those read but for those in the buffer. */
    ghost function Pos(): (p: nat)
      requires Valid()
      reads this, rio_fd, rio_buf
      ensures p <= |rio_fd.data|
    {
      if rio_cnt <= 0 then rio_fd.pos else rio_fd.pos - rio_cnt
    }

    /** rio_readinitb. */
    constructor (fd: Source)
      requires fd.Valid()
      ensures Valid() && rio_fd == fd && fresh(rio_buf) && rio_buf.Length == 8192 && Pos() == fd.pos && rio_cnt == 0
    {
      rio_fd := fd;
      rio_buf := new char[RIO_BUFSIZE];
      rio_cnt, rio_bufptr := 0, 0;
    }

    /** The refill loop of rio_read; ok is false after a hard error. */
    method Refill() returns (ok: bool)
      requires Valid()
      modifies this, rio_buf, rio_fd
      ensures Valid() && Pos() == old(Pos())
      ensures old(rio_cnt) > 0 ==>
                ok && rio_cnt == old(rio_cnt) && rio_fd.pos == old(rio_fd.pos) && rio_fd.script == old(rio_fd.script)
      ensures old(rio_cnt) <= 0 ==>
                && IsRefill(old(rio_fd.script), |rio_fd.data| - old(rio_fd.pos), rio_cnt, rio_fd.script)
                && ok == (rio_cnt >= 0)
      ensures ok && rio_cnt <= 0 ==> Pos() == |rio_fd.data| && rio_cnt == 0
      ensures Served(old(rio_fd.script), rio_fd.script, !ok)
      ensures NoFailure(old(rio_fd.script)) ==> ok && NoFailure(rio_fd.script)
    {
      hide IsRefill, Served, NoFailure;
      ghost var script, size := rio_fd.script, |rio_fd.data| - rio_fd.pos;
      ServedNone(script);
      while rio_cnt <= 0
        invariant Valid() && Pos() == old(Pos()) && Served(script, rio_fd.script, false)
        invariant rio_cnt == old(rio_cnt) || old(rio_cnt) <= 0
        invariant rio_cnt <= 0 || old(rio_cnt) > 0 ==> rio_fd.pos == old(rio_fd.pos)
        invariant old(rio_cnt) > 0 ==> rio_fd.script == script
        invariant rio_cnt <= 0 ==> SkipInterrupts(rio_fd.script) == SkipInterrupts(script)
        invariant rio_cnt > 0 >= old(rio_cnt) ==> IsRefill(script, size, rio_cnt, rio_fd.script)
        decreases |rio_fd.script|, -rio_cnt
      {
        RefillOnce(script, size, rio_fd.script);
        ServedOnce(script, rio_fd.script);
        var errno;
        rio_cnt, errno := rio_fd.Read(rio_buf, 0, RIO_BUFSIZE);
        if rio_cnt < 0 {
          if errno != EINTR {
            ServedWell(script, rio_fd.script, true);
            return false;
          }
        } else if rio_cnt == 0 {
          ServedWell(script, rio_fd.script, false);
          return true;
        } else {
          rio_bufptr := 0;
        }
      }
      ServedWell(script, rio_fd.script, false);
      ok := true;
    }

    /** rio_read into usrbuf[at..at + n]: what is in the internal buffer, up to n bytes, after a refill if it was
        empty. */
    method Read(usrbuf: array<char>, at: nat, n: nat) returns (cnt: int)
      requires Valid() && at + n <= usrbuf.Length && usrbuf != rio_buf
      modifies this, rio_buf, rio_fd, usrbuf
      ensures Valid() && -1 <= cnt <= n && Pos() == old(Pos()) + (if cnt < 0 then 0 else cnt)
      ensures cnt == 0 ==> n == 0 || Pos() == |rio_fd.data|
      ensures 0 <= cnt < n ==> rio_cnt == 0
      ensures old(rio_cnt) > 0 ==> cnt >= 0 && rio_fd.pos == old(rio_fd.pos) && rio_fd.script == old(rio_fd.script)
      ensures Served(old(rio_fd.script), rio_fd.script, cnt < 0)
      ensures NoFailure(old(rio_fd.script)) ==> cnt >= 0 && NoFailure(rio_fd.script)
      ensures forall i :: at <= i < at + cnt ==> usrbuf[i] == rio_fd.data[old(Pos()) + i - at]
      ensures forall i :: 0 <= i < usrbuf.Length && !(at <= i < at + cnt) ==> usrbuf[i] == old(usrbuf[i])
    {
      var ok := Refill();
      if !ok {
        return -1;
      }
      if rio_cnt <= 0 {
        return 0;
      }
      cnt := n;
      if rio_cnt < n {
        cnt := rio_cnt;
      }
      forall i | 0 <= i < cnt {
        usrbuf[at + i] := rio_buf[rio_bufptr + i];
      }
      rio_bufptr := rio_bufptr + cnt;
      rio_cnt := rio_cnt - cnt;
    }

    /** rio_readnb: buffered, with the same result as rio_readn on the same bytes. rio_read retries interrupted
        calls itself, so a negative result is always a hard error. */
    method ReadNb(usrbuf: array<char>, n: nat) returns (r: int, ghost got: nat)
      requires Valid() && n <= usrbuf.Length && usrbuf != rio_buf
      modifies this, rio_buf, rio_fd, usrbuf
      ensures Valid() && Pos() == old(Pos()) + got && got <= n
      ensures r == if r < 0 then -1 else Min(n, |rio_fd.data| - old(Pos()))
      ensures r >= 0 ==> got == r
      ensures Served(old(rio_fd.script), rio_fd.script, r < 0) && (r < 0 ==> got < n)
      ensures NoFailure(old(rio_fd.script)) ==> r >= 0 && NoFailure(rio_fd.script)
      ensures forall i :: 0 <= i < got ==> usrbuf[i] == rio_fd.data[old(Pos()) + i]
      ensures forall i :: got <= i < usrbuf.Length ==> usrbuf[i] == old(usrbuf[i])
    {
      hide NoFailure, Served;
      ghost var script := rio_fd.script;
      ServedNone(script);
      var nleft: nat, bufp: nat := n, 0;
      while nleft > 0
        invariant Valid() && nleft + bufp == n && Pos() == old(Pos()) + bufp
        invariant Served(script, rio_fd.script, false)
        invariant forall i :: 0 <= i < bufp ==> usrbuf[i] == rio_fd.data[old(Pos()) + i]
        invariant forall i :: bufp <= i < usrbuf.Length ==> usrbuf[i] == old(usrbuf[i])
      {
        ghost var before := rio_fd.script;
        var nread := Read(usrbuf, bufp, nleft);
        ServedTwice(script, before, rio_fd.script, nread < 0);
        ServedWell(script, rio_fd.script, nread < 0);
        if nread < 0 {
          return -1, bufp;
        } else if nread == 0 {
          break;
        }
        nleft := nleft - nread;
        bufp := bufp + nread;
      }
      ServedWell(script, rio_fd.script, false);
      r, got := n - nleft, bufp;
    }

    /** rio_read of one byte into a local variable. */
    method ReadByte() returns (rc: int, c: char)
      requires Valid()
      modifies this, rio_buf, rio_fd
      ensures Valid() && -1 <= rc <= 1 && Pos() == old(Pos()) + (if rc < 0 then 0 else rc)
      ensures rc == 0 ==> Pos() == |rio_fd.data|
      ensures rc == 1 ==> c == rio_fd.data[old(Pos())]
      ensures Served(old(rio_fd.script), rio_fd.script, rc < 0)
      ensures NoFailure(old(rio_fd.script)) ==> rc >= 0 && NoFailure(rio_fd.script)
    {
      var buf := new char[1];
      rc := Read(buf, 0, 1);
      c := buf[0];
    }

    /** rio_readlineb: the bytes up to and including the first newline, cut at maxlen - 1 bytes, then a zero byte.
        The result is the number of bytes stored before the zero if the last is a newline and one more otherwise;
        it is 0, with nothing stored, when there is nothing to read. */
    method ReadLineb(usrbuf: array<char>, maxlen: nat) returns (r: int, ghost got: nat)
      requires Valid() && maxlen <= usrbuf.Length && usrbuf.Length > 0 && usrbuf != rio_buf
      modifies this, rio_buf, rio_fd, usrbuf
      ensures Valid() && Pos() == old(Pos()) + got && Pos() <= LineEnd(rio_fd.data, old(Pos()), maxlen - 1)
      ensures r < 0 ==> r == -1 && got < maxlen - 1
      ensures Served(old(rio_fd.script), rio_fd.script, r < 0)
      ensures r >= 0 ==> Pos() == LineEnd(rio_fd.data, old(Pos()), maxlen - 1)
      ensures r >= 0 ==> r == LineResult(rio_fd.data, old(Pos()), maxlen)
      ensures NoFailure(old(rio_fd.script)) ==> r >= 0 && NoFailure(rio_fd.script)
      ensures forall i :: 0 <= i < got ==> usrbuf[i] == rio_fd.data[old(Pos()) + i]
      ensures r > 0 ==> got < usrbuf.Length && usrbuf[got] as int == 0
      ensures forall i :: got <= i < usrbuf.Length && !(r > 0 && i == got) ==> usrbuf[i] == old(usrbuf[i])
    {
      hide NoFailure, Served, LineEnd, Valid, Pos;
      ghost var script := rio_fd.script;
      ServedNone(script);
      ghost var d, end := rio_fd.data, LineEnd(rio_fd.data, Pos(), maxlen - 1);
      var n, bufp: nat := 1, 0;
      while n < maxlen
        invariant bufp == n - 1 && (n <= maxlen || n == 1)
        invariant Valid() && Pos() == old(Pos()) + bufp && end == LineEnd(d, Pos(), maxlen - n)
        invariant Served(script, rio_fd.script, false)
        invariant bufp > 0 ==> d[Pos() - 1] != NEWLINE
        invariant forall i :: 0 <= i < bufp ==> usrbuf[i] == d[old(Pos()) + i]
        invariant forall i :: bufp <= i < usrbuf.Length ==> usrbuf[i] == old(usrbuf[i])
      {
        LineEndNext(d, Pos(), maxlen - n);
        ghost var before := rio_fd.script;
        var rc, c := ReadByte();
        ServedTwice(script, before, rio_fd.script, rc < 0);
        ServedWell(script, rio_fd.script, rc < 0);
        if rc == 1 {
          usrbuf[bufp] := c;
          bufp := bufp + 1;
          if c == NEWLINE {
            break;
          }
        } else if rc == 0 {
          if n == 1 {
            return 0, bufp;
          } else {
            break;
          }
        } else {
          return -1, bufp;
        }
        n := n + 1;
      }
      LineEndNext(d, Pos(), maxlen - n);
      ServedWell(script, rio_fd.script, false);
      usrbuf[bufp] := NUL;
      r, got := n, bufp;
    }
  }

  // Lines

  /** The result of rio_readlineb is the number of bytes it stored before the zero byte if and only if there was nothing
      to read or the line ends in a newline; otherwise, at the end of the data and at the limit, it is one more. */
  lemma ResultIsCount(d: seq<char>, p: nat, maxlen: nat)
    requires p <= |d|
    ensures var end := LineEnd(d, p, maxlen - 1);
            var counts := (p == |d| && maxlen >= 2) || (end > p && d[end - 1] == NEWLINE);
            && (LineResult(d, p, maxlen) == end - p <==> counts)
            && (!counts ==> LineResult(d, p, maxlen) == end - p + 1)
  {}

  /** Two bytes without a newline: two are stored and the result is three. */
  lemma ResultIsOneMore()
    ensures LineEnd("ab", 0, 9) == 2 && LineResult("ab", 0, 10) == 3
  {
    assert LineEnd("ab", 2, 7) == 2;
    assert LineEnd("ab", 1, 8) == 2;
  }

  /** A line stops at the end of the data, at the limit, or after its only newline. */
  lemma {:induction false} LineShape(d: seq<char>, p: nat, limit: int)
    requires p <= |d|
    ensures var end := LineEnd(d, p, limit);
            && (forall i :: p <= i < end - 1 ==> d[i] != '\n')
            && (end == |d| || end == p + (if limit < 0 then 0 else limit) || (end > p && d[end - 1] == '\n'))
            && (end == p <==> p == |d| || limit <= 0)
    decreases |d| - p
  {
    if p < |d| && limit > 0 && d[p] != NEWLINE {
      LineShape(d, p + 1, limit - 1);
    }
  }

  lemma {:induction false} AmpleLimit(d: seq<char>, p: nat, limit: nat, limit': nat)
    requires p <= |d| && limit >= |d| - p && limit' >= |d| - p
    ensures LineEnd(d, p, limit) == LineEnd(d, p, limit')
    decreases |d| - p
  {
    if p < |d| && d[p] != NEWLINE {
      AmpleLimit(d, p + 1, limit - 1, limit' - 1);
    }
  }

  /** The lines that repeated calls of rio_readlineb store from position p on. */
  function Lines(d: seq<char>, p: nat, maxlen: nat): (lines: seq<seq<char>>)
    requires p <= |d| && maxlen >= 2
    decreases |d| - p
  {
    var end := LineEnd(d, p, maxlen - 1);
    if end <= p then [] else [d[p..end]] + Lines(d, end, maxlen)
  }

  /** Nothing is lost or repeated between lines. */
  lemma {:induction false} LinesConcat(d: seq<char>, p: nat, maxlen: nat)
    requires p <= |d| && maxlen >= 2
    ensures Concat(Lines(d, p, maxlen)) == d[p..]
    decreases |d| - p
  {
    var end := LineEnd(d, p, maxlen - 1);
    LineShape(d, p, maxlen - 1);
    if end > p {
      LinesConcat(d, end, maxlen);
      ConcatFront(d[p..end], Lines(d, end, maxlen));
    }
  }

  ghost predicate IsLine(line: seq<char>, last: bool) {
    && line != []
    && (forall i :: 0 <= i < |line| - 1 ==> line[i] != NEWLINE)
    && (last || line[|line| - 1] == NEWLINE)
  }

  /** With a buffer longer than the data each piece is a whole line: its one newline is its last byte, and only
      the last line may lack it. */
  lemma {:induction false} LinesAreLines(d: seq<char>, p: nat, maxlen: nat, k: nat)
    requires p <= |d| && maxlen >= 2 && maxlen > |d| && k < |Lines(d, p, maxlen)|
    ensures IsLine(Lines(d, p, maxlen)[k], k == |Lines(d, p, maxlen)| - 1)
    decreases |d| - p
  {
    var end := LineEnd(d, p, maxlen - 1);
    LineShape(d, p, maxlen - 1);
    if k > 0 {
      LinesAreLines(d, end, maxlen, k - 1);
    } else if d[end - 1] != NEWLINE {
      assert end == |d|;
    }
  }

  // Runs of calls

  datatype Call = ReadN(n: nat) | ReadLine(maxlen: nat)

  /** How many bytes have been delivered after some calls, whatever the kernel does short of a hard error. */
  function PosAfter(d: seq<char>, p: nat, calls: seq<Call>): (q: nat)
    requires p <= |d|
    ensures p <= q <= |d|
  {
    if calls == [] then p
    else
      var q := PosAfter(d, p, calls[..|calls| - 1]);
      match calls[|calls| - 1]
      case ReadN(n) => q + Min(n, |d| - q)
      case ReadLine(maxlen) => LineEnd(d, q, maxlen - 1)
  }

  /** A client that makes any calls and keeps what they deliver. It gets the bytes of the descriptor from where
      it was, in order, each once, and how many depends on the calls alone. */
  method RunCalls(rp: Reader, calls: seq<Call>) returns (delivered: seq<char>)
    requires rp.Valid() && NoFailure(rp.rio_fd.script)
    modifies rp, rp.rio_buf, rp.rio_fd
    ensures rp.Valid() && NoFailure(rp.rio_fd.script)
    ensures rp.Pos() == PosAfter(rp.rio_fd.data, old(rp.Pos()), calls)
    ensures delivered == rp.rio_fd.data[old(rp.Pos())..rp.Pos()]
  {
    delivered := [];
    for k := 0 to |calls|
      invariant rp.Valid() && NoFailure(rp.rio_fd.script)
      invariant old(rp.Pos()) <= rp.Pos() == PosAfter(rp.rio_fd.data, old(rp.Pos()), calls[..k])
      invariant delivered == rp.rio_fd.data[old(rp.Pos())..rp.Pos()]
    {
      assert calls[..k + 1][..k] == calls[..k];
      ghost var p := rp.Pos();
      var bytes := OneCall(rp, calls[k]);
      Join(rp.rio_fd.data, old(rp.Pos()), p, rp.Pos());
      delivered := delivered + bytes;
    }
    assert calls[..|calls|] == calls;
  }

  lemma Join(d: seq<char>, i: nat, j: nat, k: nat)
    requires i <= j <= k <= |d|
    ensures d[i..j] + d[j..k] == d[i..k]
  {}

  method OneCall(rp: Reader, call: Call) returns (bytes: seq<char>)
    requires rp.Valid() && NoFailure(rp.rio_fd.script)
    modifies rp, rp.rio_buf, rp.rio_fd
    ensures rp.Valid() && NoFailure(rp.rio_fd.script)
    ensures rp.Pos() == match call
                        case ReadN(n) => old(rp.Pos()) + Min(n, |rp.rio_fd.data| - old(rp.Pos()))
                        case ReadLine(maxlen) => LineEnd(rp.rio_fd.data, old(rp.Pos()), maxlen - 1)
    ensures old(rp.Pos()) <= rp.Pos() && bytes == rp.rio_fd.data[old(rp.Pos())..rp.Pos()]
  {
    hide LineEnd;
    match call {
      case ReadN(n) =>
        ghost var p := rp.Pos();
        var buf := new char[n];
        var r, got := rp.ReadNb(buf, n);
        bytes := buf[..r];
        assert forall i :: 0 <= i < |bytes| ==> bytes[i] == rp.rio_fd.data[p + i];
      case ReadLine(maxlen) =>
        var r;
        r, bytes := OneLine(rp, maxlen);
    }
  }

  /** A call of rio_readlineb, and what its caller finds in the buffer. */
  method OneLine(rp: Reader, maxlen: nat) returns (r: int, bytes: seq<char>)
    requires rp.Valid() && NoFailure(rp.rio_fd.script)
    modifies rp, rp.rio_buf, rp.rio_fd
    ensures rp.Valid() && NoFailure(rp.rio_fd.script)
    ensures rp.Pos() == LineEnd(rp.rio_fd.data, old(rp.Pos()), maxlen - 1)
    ensures r == LineResult(rp.rio_fd.data, old(rp.Pos()), maxlen)
    ensures old(rp.Pos()) <= rp.Pos() && bytes == rp.rio_fd.data[old(rp.Pos())..rp.Pos()]
  {
    hide LineEnd;
    ghost var p := rp.Pos();
    var buf := new char[maxlen + 1];
    ghost var got;
    r, got := rp.ReadLineb(buf, maxlen);
    bytes := if r == 0 then [] else if buf[r - 1] == NEWLINE then buf[..r] else buf[..r - 1];
    assert got > 0 ==> buf[got - 1] == rp.rio_fd.data[p + got - 1];
    assert bytes == buf[..got];
    assert forall i :: 0 <= i < |bytes| ==> bytes[i] == rp.rio_fd.data[p + i];
  }

  lemma LinesUnfold(d: seq<char>, p: nat, maxlen: nat)
    requires p <= |d| && maxlen >= 2
    ensures var end := LineEnd(d, p, maxlen - 1);
            && (LineResult(d, p, maxlen) == 0 <==> p == |d|) && (p < |d| ==> p < end)
            && Lines(d, p, maxlen) == if p == |d| then [] else [d[p..end]] + Lines(d, end, maxlen)
  {
    LineShape(d, p, maxlen - 1);
  }

  lemma LinesEnd(d: seq<char>, maxlen: nat)
    requires maxlen >= 2
    ensures Lines(d, |d|, maxlen) == []
  {}

  /** A client that calls rio_readlineb until it returns 0 reads the data to their end as the lines above. */
  method ReadLines(rp: Reader, maxlen: nat) returns (lines: seq<seq<char>>)
    requires rp.Valid() && NoFailure(rp.rio_fd.script) && maxlen >= 2
    modifies rp, rp.rio_buf, rp.rio_fd
    ensures rp.Valid() && NoFailure(rp.rio_fd.script) && rp.Pos() == |rp.rio_fd.data|
    ensures lines == Lines(rp.rio_fd.data, old(rp.Pos()), maxlen)
  {
    hide Lines, LineEnd, LineResult, NoFailure;
    lines := [];
    LinesEnd(rp.rio_fd.data, maxlen);
    var r := 1;
    while r != 0
      invariant rp.Valid() && NoFailure(rp.rio_fd.script)
      invariant Lines(rp.rio_fd.data, old(rp.Pos()), maxlen) == lines + Lines(rp.rio_fd.data, rp.Pos(), maxlen)
      invariant r >= 0 && (r == 0 ==> rp.Pos() == |rp.rio_fd.data|)
      decreases |rp.rio_fd.data| - rp.Pos(), r
    {
      LinesUnfold(rp.rio_fd.data, rp.Pos(), maxlen);
      var bytes;
      r, bytes := OneLine(rp, maxlen);
      if r != 0 {
        lines := lines + [bytes];
      }
    }
  }
}
