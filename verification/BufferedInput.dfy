/**
 The read side of libbio: a buffer whose unread bytes lie flush against its
 end, with room in front for bytes that are read again after Bungetc.  Every
 operation is measured against the plain file and a position in it.
 */
module BufferedInput {
  import opened Basics
  import Words

  const UTFMAX: nat := 3
  const BUNGETSIZE: nat := UTFMAX + 1  // so many bytes can be given back at any time
  const BEOF: int := -1

  /** C's int, and the sizes for which the whole buffer fits one. */
  const INT: int := 0x8000_0000

  type Size = n: int | 0 <= n < 0x8000_0000 - 4

  datatype State = Inactive | Active | AtEof

  /** The descriptor: reads may come up short, and fail, at any time. */
  class File {
    const data: seq<byte>
    const prompt: bool  // every read gives all it can
    var pos: nat

    constructor (data: seq<byte>, prompt: bool)
      ensures this.data == data && this.prompt == prompt && pos == 0
    {
      this.data, this.prompt, pos := data, prompt, 0;
    }

    /** What a prompt read of n bytes gives. */
    ghost function Most(n: nat): nat
      reads this
    {
      if pos + n <= |data| then n else if pos < |data| then |data| - pos else 0
    }

    /** read(2) of up to `n` bytes to buf[at..]; 0 at end of file or if the
        file has nothing to give just now, -1 for an error. */
    method Read(buf: array<byte>, at: nat, n: nat) returns (got: int)
      requires at + n <= buf.Length
      modifies buf, this`pos
      ensures -1 <= got <= n
      ensures got <= 0 ==> pos == old(pos) && forall k :: 0 <= k < buf.Length ==> buf[k] == old(buf[k])
      ensures got > 0 ==> pos == old(pos) + got <= |data|
      ensures prompt ==> got == old(Most(n))
      ensures forall k :: 0 <= k < at || (k >= at + got && at <= k < buf.Length) ==> buf[k] == old(buf[k])
      ensures forall k :: at <= k < at + got ==> buf[k] == data[k + old(pos) - at]
    {
      var left := if pos < |data| then |data| - pos else 0;
      got :| -1 <= got <= n && got <= left && (prompt ==> got == if n <= left then n else left);
      if got <= 0 { return; }
      ghost var was := buf[..];
      var i := 0;
      while i < got
        invariant 0 <= i <= got && pos == old(pos)
        invariant forall k :: 0 <= k < at || at + i <= k < buf.Length ==> buf[k] == was[k]
        invariant forall k :: at <= k < at + i ==> buf[k] == data[k + pos - at]
      {
        buf[at + i] := data[pos + i];
        i := i + 1;
      }
      pos := pos + got;
    }

    /** seek(2) to `n` from the start (base 0) or the end (base 2). */
    method Seek(n: int, base: int) returns (at: int)
      modifies this`pos
      ensures var to := if base == 0 then n else if base == 2 then |data| + n else -1;
              if to >= 0 then at == pos == to else at == -1 && pos == old(pos)
    {
      var to := if base == 0 then n else if base == 2 then |data| + n else -1;
      if to < 0 { return -1; }
      pos := to;
      return to;
    }
  }

  /** memmove within a buffer. */
  method Memmove(buf: array<byte>, to: nat, from: nat, n: nat)
    requires to + n <= buf.Length && from + n <= buf.Length
    modifies buf
    ensures forall k :: 0 <= k < to || to + n <= k < buf.Length ==> buf[k] == old(buf[k])
    ensures forall k :: to <= k < to + n ==> buf[k] == old(buf[k + from - to])
  {
    ghost var was := buf[..];
    ghost var d := from - to;
    if to < from {
      var i := 0;
      while i < n
        invariant 0 <= i <= n
        invariant forall k :: 0 <= k < to || to + i <= k < buf.Length ==> buf[k] == was[k]
        invariant forall k :: to <= k < to + i ==> buf[k] == was[k + d]
      {
        buf[to + i] := buf[from + i];
        i := i + 1;
      }
    } else {
      var i := n;
      while i > 0
        invariant 0 <= i <= n
        invariant forall k :: 0 <= k < to + i || to + n <= k < buf.Length ==> buf[k] == was[k]
        invariant forall k :: to + i <= k < to + n ==> buf[k] == was[k + d]
      {
        i := i - 1;
        buf[to + i] := buf[from + i];
      }
    }
  }

  class Biobuf {
    const fid: File
    const bsize: Size
    const buf: array<byte>
    var icount: int       // minus the number of bytes not read yet
    var offset: int       // file offset of the end of the buffer
    var state: State
    var rdline: int       // length of the last line
    var gbuf: int         // start of the good data
    ghost var good: nat   // bytes before the end of the buffer that are the file's
    ghost var ended: bool // Bgetc has met the end of the file since the last filling

    const bbuf: nat := BUNGETSIZE
    const ebuf: nat := BUNGETSIZE + bsize

    constructor (fid: File, size: Size)
      requires fid.pos == 0
      ensures Valid() && Pos() == 0 && this.fid == fid && bsize == size && state == Active && fresh(buf)
      ensures offset == 0 && !ended
    {
      this.fid, bsize := fid, size;
      buf := new byte[BUNGETSIZE + size];
      icount, offset, state, rdline, good, ended := 0, 0, Active, 0, 0, false;
      gbuf := BUNGETSIZE + size;
    }

    /** The last `good` bytes of the buffer are the file's up to the offset. */
    ghost predicate Exact()
      reads `offset, `good, buf, fid`pos
    {
      && buf.Length == ebuf
      && offset == fid.pos && good <= ebuf
      && (good > 0 ==> good <= offset <= |fid.data|)
      && forall k :: ebuf - good <= k < ebuf ==> buf[k] == fid.data[k + offset - ebuf]
    }

    /** The unread bytes are in the buffer, though they need not be the file's. */
    ghost predicate Loose()
      reads this, buf, fid
    {
      && Exact() && 0 <= -icount <= ebuf && bbuf <= gbuf <= ebuf
      && (state == AtEof ==> icount == 0) && (!ended ==> GbufExact())
    }

    ghost predicate Valid()
      reads this, buf, fid
    {
      Loose() && -icount <= good
    }

    /** [gbuf, ebuf) is good data. */
    ghost predicate GbufExact()
      reads `gbuf, `good
    {
      ebuf - gbuf <= good
    }

    /** Where the next byte comes from. */
    ghost function Pos(): int
      reads `offset, `icount
    {
      offset + icount
    }

    function Boffset(): int
      reads this
    {
      if state == Inactive then BEOF else offset + icount
    }

    /** The next byte, whatever is in the buffer; that is the file's if the
        buffer is in order. */
    method Bgetc() returns (c: int)
      requires Loose()
      modifies this, buf, fid`pos
      ensures Loose() && (old(Valid()) ==> Valid())
      ensures c != BEOF && old(Valid()) ==> 0 <= old(Pos()) < |fid.data| && c == fid.data[old(Pos())]
      ensures Pos() == old(Pos()) + (if c == BEOF then 0 else 1)
      ensures c != BEOF ==> state == old(state)
      ensures c == BEOF ==> icount == old(icount) == 0
      ensures c == BEOF ==> match old(state)
                            case Active => state == AtEof || (state == Inactive && !fid.prompt)
                            case AtEof => state == Active
                            case Inactive => state == Inactive
      ensures offset - good <= old(offset - good)
           || (bsize >= BUNGETSIZE && offset - good <= old(Pos()) - BUNGETSIZE)
           || offset - good <= old(Pos()) - bsize
      ensures -old(icount) <= bsize ==> -icount <= bsize
      ensures old(icount) != 0 ==> c == buf[ebuf + old(icount)]
      ensures old(icount) != 0 || old(state) != Active ==>
                offset == old(offset) && good == old(good) && gbuf == old(gbuf) && ended == old(ended) && buf[..] == old(buf[..])
      ensures c == BEOF && old(state) == Active ==>
                && ended && offset == old(offset) && gbuf == bbuf && good == old(if good <= bsize then good else bsize)
                && forall k :: bbuf <= k < ebuf ==> buf[k] == old(buf[k])
      ensures old(icount) == 0 && c != BEOF ==>
                && !ended && 0 < offset - old(offset) == 1 - icount <= bsize
                && good == offset - old(offset) + old(if good <= BUNGETSIZE then good else BUNGETSIZE)
                && 0 <= old(offset) && offset <= |fid.data|
                && forall k :: bbuf <= k < ebuf - (offset - old(offset)) - BUNGETSIZE ==>
                     buf[k] == if k < bbuf + (offset - old(offset)) then fid.data[k + old(offset) - bbuf] else old(buf[k])
      ensures old(icount) == 0 && old(state) == Active && fid.prompt && old(fid.Most(bsize)) > 0 ==>
                c != BEOF && offset == old(offset + fid.Most(bsize))
    {
      hide Exact, GbufExact;
      Whole();
      if icount == 0 {
        if state != Active {
          if state == AtEof { state := Active; }
          return BEOF;
        }
        var ok := Next();
        if !ok { return BEOF; }
      }
      Unread();
      c := buf[ebuf + icount];
      icount := icount + 1;
    }

    /** The next buffer, of which nothing is read yet. */
    method Next() returns (ok: bool)
      requires Valid() && icount == 0 && state == Active
      modifies this, buf, fid`pos
      ensures Valid() && buf.Length == ebuf
      ensures ok ==> state == Active && !ended && 0 < offset - old(offset) == -icount <= bsize
      ensures ok ==> good == offset - old(offset) + old(if good <= BUNGETSIZE then good else BUNGETSIZE)
      ensures ok ==> 0 <= old(offset) && offset <= |fid.data|
                     && forall k :: bbuf <= k < ebuf - (offset - old(offset)) - BUNGETSIZE ==>
                          buf[k] == if k < bbuf + (offset - old(offset)) then fid.data[k + old(offset) - bbuf] else old(buf[k])
      ensures !ok ==> (state == AtEof || (state == Inactive && !fid.prompt)) && ended && icount == 0 && offset == old(offset)
      ensures !ok ==> gbuf == bbuf && good == (if old(good) <= bsize then old(good) else bsize)
                      && forall k :: bbuf <= k < ebuf ==> buf[k] == old(buf[k])
      ensures fid.prompt && old(fid.Most(bsize)) > 0 ==> ok && offset == old(offset + fid.Most(bsize))
    {
      hide Exact, GbufExact;
      Whole();
      var i := Refill();
      ok := i > 0;
      if !ok {
        Whole();
        state := if i < 0 then Inactive else AtEof;
        return;
      }
      icount := -i;
      offset := offset + i;
      Refilled();
    }

    /** What a prompt read gives with nothing unread. */
    lemma AtMost()
      requires Exact()
      ensures icount == 0 && bsize > 0 ==> (fid.Most(bsize) > 0 <==> Pos() < |fid.data|)
    {
    }

    lemma InFile()
      requires Exact()
      ensures good == 0 || offset <= |fid.data|
    {
    }

    /** With nothing stale the buffer does not reach back to before the file. */
    lemma NotBefore(n: int, base: int)
      requires Valid()
      ensures !ended && -INT < n - offset && InBuffer(n, base) ==> n >= 0
    {
    }

    lemma ArrivedAt(n: int)
      ensures Delivers(n) ==> Pos() == n >= 0
    {
    }

    /** What a failed search has seen of the file. */
    lemma NoneThere(delim: byte)
      requires Valid() && NoLine(delim)
      ensures icount < 0 ==> 0 <= Pos() && offset <= |fid.data| && forall k :: Pos() <= k < offset ==> fid.data[k] != delim
      ensures Pos() >= 0 && (icount < 0 || Pos() <= |fid.data|) && (offset >= |fid.data| || -icount == bsize) ==>
                LineLength(fid.data, Pos(), delim) == 0 || LineLength(fid.data, Pos(), delim) > bsize
    {
      if icount < 0 {
        forall k | Pos() <= k < offset
          ensures fid.data[k] != delim
        {
          assert buf[k - offset + ebuf] == fid.data[k];
        }
        LineLengthIs(fid.data, Pos(), delim, -icount);
      } else if 0 <= Pos() <= |fid.data| {
        LineLengthIs(fid.data, Pos(), delim, 0);
      }
    }

    lemma Unread()
      requires Exact() && icount < 0
      ensures -icount <= good ==> 0 <= Pos() < |fid.data| && buf[ebuf + icount] == fid.data[Pos()]
    {
    }

    lemma Refilled()
      requires buf.Length == ebuf && fid.pos == offset <= |fid.data| && good <= ebuf && good <= offset
      requires forall k :: ebuf - good <= k < ebuf ==> buf[k] == fid.data[k + offset - ebuf]
      ensures Exact()
    {
    }

    /** The next buffer, with the last Bungetsize bytes kept in front of it.
        In front of those there is then what a short read has left there: the
        bytes just read, from the start of the buffer on, and behind them what
        was there before. */
    method Refill() returns (i: int)
      requires Valid() && icount == 0
      modifies this`gbuf, this`good, this`ended, buf, fid`pos
      ensures fid.prompt ==> i == old(fid.Most(bsize))
      ensures i <= bsize
      ensures i <= 0 ==> ended && Valid() && gbuf == bbuf && good == if old(good) <= bsize then old(good) else bsize
      ensures i <= 0 ==> forall k :: bbuf <= k < ebuf ==> buf[k] == old(buf[k])
      ensures i > 0 ==> !ended && bbuf <= gbuf <= ebuf && GbufExact()
      ensures i > 0 ==> good == i + if old(good) <= BUNGETSIZE then old(good) else BUNGETSIZE
      ensures i > 0 ==> buf.Length == ebuf && fid.pos == offset + i <= |fid.data| && 0 <= offset
      ensures i > 0 ==> good <= ebuf && good <= offset + i
      ensures i > 0 ==> forall k :: ebuf - good <= k < ebuf ==> buf[k] == fid.data[k + offset + i - ebuf]
      ensures i > 0 ==> forall k :: bbuf <= k < ebuf - i - BUNGETSIZE ==>
                          buf[k] == if k < bbuf + i then fid.data[k + offset - bbuf] else old(buf[k])
    {
      i := KeepAndRead();
      gbuf, ended := bbuf, i <= 0;
      if i <= 0 {
        good := if good <= bsize then good else bsize;
        return;
      }
      good := i + if good <= BUNGETSIZE then good else BUNGETSIZE;
      FlushRefill(i);
    }

    /** Put the last Bungetsize bytes in front of the buffer and read into it. */
    method KeepAndRead() returns (i: int)
      requires Valid() && icount == 0
      modifies buf, fid`pos
      ensures i <= bsize && (fid.prompt ==> i == old(fid.Most(bsize)))
      ensures forall k :: bbuf + (if i > 0 then i else 0) <= k < ebuf ==> buf[k] == old(buf[k])
      ensures i <= 0 ==> fid.pos == offset
      ensures i > 0 ==> fid.pos == offset + i <= |fid.data|
      ensures i > 0 ==> forall k :: bbuf - (if good <= BUNGETSIZE then good else BUNGETSIZE) <= k < bbuf + i ==>
                buf[k] == fid.data[k + offset - bbuf]
    {
      ghost var kept: nat := if good <= BUNGETSIZE then good else BUNGETSIZE;
      Memmove(buf, 0, ebuf - BUNGETSIZE, BUNGETSIZE);
      assert forall k :: bbuf - kept <= k < bbuf ==> buf[k] == fid.data[k + offset - bbuf];
      i := fid.Read(buf, bbuf, bsize);
    }

    method FlushRefill(i: nat)
      requires buf.Length == ebuf && i <= bsize && i <= good <= i + BUNGETSIZE && good <= offset + i <= |fid.data|
      requires gbuf == bbuf
      requires forall k :: BUNGETSIZE + i - good <= k < BUNGETSIZE + i ==> buf[k] == fid.data[k + offset - BUNGETSIZE]
      modifies this`gbuf, buf
      ensures bbuf <= gbuf <= ebuf && GbufExact()
      ensures forall k :: ebuf - good <= k < ebuf ==> buf[k] == fid.data[k + offset + i - ebuf]
      ensures forall k :: 0 <= k < ebuf - i - BUNGETSIZE ==> buf[k] == old(buf[k])
    {
      if i < bsize {
        Memmove(buf, ebuf - i - BUNGETSIZE, 0, i + BUNGETSIZE);
        gbuf := ebuf - i;
      }
    }

    /** One byte back.  Whether it can be read again depends on `good`. */
    method Bungetc() returns (r: int)
      requires Exact()
      modifies this`icount, this`state
      ensures Exact()
      ensures r == BEOF <==> old(state) == Inactive
      ensures r == BEOF ==> icount == old(icount) && state == old(state)
      ensures r != BEOF ==> r == 1 && state == Active && Pos() == old(Pos()) - 1
      ensures old(Loose()) && -old(icount) < ebuf ==> Loose()
      ensures old(Valid()) && -old(icount) < good ==> Valid()
    {
      if state == AtEof { state := Active; }
      if state != Active { return BEOF; }
      icount := icount - 1;
      return 1;
    }

    /** memmove out of the buffer. */
    method CopyOut(dst: array<byte>, to: nat, from: nat, n: nat)
      requires to + n <= dst.Length && from + n <= buf.Length && dst != buf
      modifies dst
      ensures forall k :: 0 <= k < to || to + n <= k < dst.Length ==> dst[k] == old(dst[k])
      ensures forall k :: to <= k < to + n ==> dst[k] == buf[k + from - to]
    {
      var i := 0;
      while i < n
        invariant 0 <= i <= n
        invariant forall k :: 0 <= k < to || to + i <= k < dst.Length ==> dst[k] == old(dst[k])
        invariant forall k :: to <= k < to + i ==> dst[k] == buf[k + from - to]
      {
        dst[to + i] := buf[from + i];
        i := i + 1;
      }
    }

    /** Unread bytes to dst. */
    method CopyUnread(dst: array<byte>, to: nat, ic: int, n: nat)
      requires Exact() && n <= -ic <= good && to + n <= dst.Length && dst != buf
      modifies dst
      ensures forall k :: 0 <= k < to || to + n <= k < dst.Length ==> dst[k] == old(dst[k])
      ensures n > 0 ==> 0 <= offset + ic && offset + ic + n <= |fid.data|
      ensures forall k :: to <= k < to + n ==> dst[k] == fid.data[k + offset + ic - to]
    {
      CopyOut(dst, to, ebuf + ic, n);
    }

    /** An empty buffer is filled, flush against its end. */
    method Fill() returns (i: int)
      requires Exact()
      modifies this`gbuf, this`good, this`ended, this`offset, this`state, buf, fid`pos
      ensures Exact() && -1 <= i <= bsize && (fid.prompt ==> i == old(fid.Most(bsize)))
      ensures i <= 0 ==> good == old(good) && offset == old(offset) && gbuf == old(gbuf) && ended == old(ended)
      ensures i <= 0 ==> state == if i < 0 then Inactive else AtEof
      ensures i <= 0 && fid.prompt && bsize > 0 ==> offset >= |fid.data|
      ensures i > 0 ==> good == i && offset == old(offset) + i && state == old(state)
      ensures i > 0 ==> GbufExact() && !ended && bbuf <= gbuf <= ebuf
    {
      i := fid.Read(buf, bbuf, bsize);
      if i <= 0 {
        state := if i < 0 then Inactive else AtEof;
        return;
      }
      gbuf := bbuf;
      offset := offset + i;
      if i < bsize {
        Memmove(buf, ebuf - i, bbuf, i);
        gbuf := ebuf - i;
      }
      good, ended := i, false;
    }

    /** Up to `count` bytes to dst; short only at end of file or on an error. */
    method Bread(dst: array<byte>, count: int) returns (r: int)
      requires Valid() && dst != buf && count <= dst.Length
      modifies this, buf, fid`pos, dst
      ensures Valid()
      ensures 0 <= Pos() - old(Pos()) <= if count > 0 then count else 0
      ensures Pos() > old(Pos()) ==> 0 <= old(Pos()) && Pos() <= |fid.data|
      ensures forall k :: 0 <= k < Pos() - old(Pos()) ==> dst[k] == fid.data[k + old(Pos())]
      ensures forall k :: Pos() - old(Pos()) <= k < dst.Length ==> dst[k] == old(dst[k])
      ensures Pos() - old(Pos()) < count ==> icount == 0 && state != Active
      ensures Pos() - old(Pos()) < count && old(state) == Active && fid.prompt && bsize > 0 ==>
                Pos() >= |fid.data| && state == AtEof
      ensures Pos() - old(Pos()) >= count || old(state) != Active ==> state == old(state)
      ensures r == if Pos() == old(Pos()) && state == Inactive then -1 else Pos() - old(Pos())
      ensures ended ==> old(ended)
      ensures -old(icount) <= bsize ==> -icount <= bsize
    {
      hide Exact;
      Whole();
      var c, p, ic := count, 0, icount;
      ghost var p0 := Pos();
      while c > 0
        invariant p + c == count && 0 <= p <= dst.Length && (if count > 0 then 0 <= c else p == 0)
        invariant Exact() && 0 <= -ic <= good && offset + ic == p0 + p
        invariant p > 0 ==> 0 <= p0 && p0 + p <= |fid.data|
        invariant forall k :: 0 <= k < p ==> dst[k] == fid.data[k + p0]
        invariant forall k :: p <= k < dst.Length ==> dst[k] == old(dst[k])
        invariant bbuf <= gbuf <= ebuf && (!ended ==> GbufExact()) && (ended ==> old(ended))
        invariant -old(icount) <= bsize ==> -ic <= bsize
        invariant state == AtEof ==> ic == 0
        invariant state == old(state)
        decreases c, if ic == 0 then 1 else 0
      {
        var n := -ic;
        if n > c { n := c; }
        if n == 0 {
          if state != Active { break; }
          var i := Fill();
          if i <= 0 { break; }
          ic := -i;
          continue;
        }
        CopyUnread(dst, p, ic, n);
        c, ic, p := c - n, ic + n, p + n;
      }
      Whole();
      icount := ic;
      assert Pos() == p0 + p && old(Pos()) == p0;
      if count == c && state == Inactive { return -1; }
      return count - c;
    }

    /** memchr in the buffer. */
    method Memchr(at: nat, n: nat, c: byte) returns (k: int)
      requires at + n <= buf.Length
      ensures k == -1 || at <= k < at + n
      ensures k == -1 ==> forall i :: at <= i < at + n ==> buf[i] != c
      ensures k != -1 ==> buf[k] == c && forall i :: at <= i < k ==> buf[i] != c
    {
      k := at;
      while k < at + n
        invariant at <= k <= at + n
        invariant forall i :: at <= i < k ==> buf[i] != c
      {
        if buf[k] == c { return; }
        k := k + 1;
      }
      k := -1;
    }

    /** The buffer holds the unread bytes, `i` of them, from position `from` of
        the file, at `at`. */
    ghost predicate Holds(at: nat, i: nat, from: int)
      reads buf
    {
      && at + i <= buf.Length && 0 <= from && from + i <= |fid.data|
      && forall k :: at <= k < at + i ==> buf[k] == fid.data[k + from - at]
    }

    /** The `rdline` bytes at `ip` are the file's from p0 on and end with their
        only delimiter. */
    ghost predicate IsLine(ip: int, p0: int, delim: byte)
      reads this, buf
    {
      && 0 <= ip && 0 < rdline && ip + rdline <= buf.Length
      && Holds(ip, rdline, p0)
      && buf[ip + rdline - 1] == delim
      && forall k :: ip <= k < ip + rdline - 1 ==> buf[k] != delim
    }

    /** No delimiter in what is unread, all of which `rdline` counts. */
    ghost predicate NoLine(delim: byte)
      reads this, buf
    {
      && rdline == -icount <= buf.Length == ebuf
      && forall k :: ebuf + icount <= k < ebuf ==> buf[k] != delim
    }

    lemma Whole()
      requires Exact()
      ensures buf.Length == ebuf && good <= ebuf
    {
    }

    /** A line up to and with `delim`, left in the buffer; -1 if there is none
        within a buffer's length of what is left of the file.  Then nothing has
        been read, except that bytes are lost if more than a buffer's length of
        them was pushed back. */
    method Brdline(delim: byte) returns (ip: int)
      requires Valid()
      modifies this, buf, fid`pos
      ensures Valid()
      ensures ip != -1 ==> IsLine(ip, old(Pos()), delim) && Pos() == old(Pos()) + rdline && state == old(state)
      ensures ip != -1 && -old(icount) <= bsize ==> rdline <= bsize
      ensures ip == -1 ==> NoLine(delim) && state == if old(state) == AtEof then Active else old(state)
      ensures ip == -1 && old(state) == Active && -old(icount) <= bsize && fid.prompt ==> -icount == bsize || offset >= |fid.data|
      ensures ip == -1 ==> Pos() == old(Pos()) + if -old(icount) > bsize then -old(icount) - bsize else 0
      ensures ip == -1 && -old(icount) > bsize ==> icount == 0 - bsize && gbuf == bbuf
      ensures old(icount) == 0 && old(state) != Active ==> ip == -1 && gbuf == ebuf && rdline == 0 && !ended
      ensures ended ==> old(ended)
      ensures -old(icount) <= bsize ==> -icount <= bsize
    {
      hide Exact, Holds, IsLine;
      Whole();
      var i := -icount;
      if i == 0 {
        if state != Active {
          if state == AtEof { state := Active; }
          rdline := 0;
          gbuf, ended := ebuf, false;
          return -1;
        }
      }
      // a line that is there already takes no reading
      ip := ebuf - i;
      var ep := Memchr(ip, i, delim);
      if ep != -1 {
        TakeLine(ip, ep - ip + 1, delim);
        return;
      }
      if i > bsize {  // the buffer is full of what has been pushed back
        gbuf := bbuf;
        rdline, icount := bsize, 0 - bsize;
        return -1;
      }
      ip := BrdlineRefill(i, delim);
    }

    method TakeLine(ip: int, j: int, ghost delim: byte)
      requires Valid() && ip == ebuf + icount && 0 < j <= -icount
      requires buf[ip + j - 1] == delim && forall k :: ip <= k < ip + j - 1 ==> buf[k] != delim
      modifies this`rdline, this`icount
      ensures Valid() && rdline == j && IsLine(ip, old(Pos()), delim) && Pos() == old(Pos()) + j
    {
      rdline := j;
      icount := icount + j;
    }

    method BrdlineRefill(i0: nat, delim: byte) returns (ip: int)
      requires Valid() && state != AtEof && i0 == -icount <= bsize
      requires forall k :: ebuf - i0 <= k < ebuf ==> buf[k] != delim
      modifies this, buf, fid`pos
      ensures Valid() && state == old(state) && !ended && -icount <= bsize
      ensures ip != -1 ==> IsLine(ip, old(Pos()), delim) && Pos() == old(Pos()) + rdline && rdline <= bsize
      ensures ip == -1 ==> NoLine(delim) && Pos() == old(Pos()) && (fid.prompt ==> -icount == bsize || offset >= |fid.data|)
    {
      hide LineState, Holds, IsLine, NoLine, Exact, GbufExact;
      ghost var p0 := Pos();
      var i, line := Append(i0, delim);
      good, ended := i, false;
      if line > 0 {
        ip := ebuf - i;
        rdline, icount := line, line - i;
      } else {
        ip := -1;
        rdline, icount := i, 0 - i;
      }
      LineIs(p0, i, line, delim);
    }

    lemma LineIs(p0: int, i: int, line: int, delim: byte)
      requires LineState(p0, i, line, delim) && state != AtEof && good == i && !ended && icount == line - i
      requires rdline == if line > 0 then line else i
      ensures Valid() && -icount <= bsize
      ensures line > 0 ==> IsLine(ebuf - i, p0, delim) && Pos() == p0 + rdline
      ensures line == 0 ==> NoLine(delim) && Pos() == p0
      ensures offset == fid.pos && rdline <= bsize
    {
    }

    /** What Brdline leaves behind: all that is unread lies at the end of the
        buffer and is the file's from p0 on; the first delimiter, if any, is at
        `line` bytes. */
    ghost predicate LineState(p0: int, i: int, line: int, delim: byte)
      reads `offset, `gbuf, buf, fid`pos
    {
      && buf.Length == ebuf && 0 <= line <= i <= bsize && offset == fid.pos == p0 + i && gbuf == ebuf - i
      && (i > 0 ==> Holds(ebuf - i, i, p0))
      && (line == 0 ==> forall k :: ebuf - i <= k < ebuf ==> buf[k] != delim)
      && (line > 0 ==> buf[ebuf - i + line - 1] == delim && forall k :: ebuf - i <= k < ebuf - i + line - 1 ==> buf[k] != delim)
    }

    /** The unread bytes at the start of the buffer. */
    method CopyDown(i: nat, ghost delim: byte)
      requires Valid() && i == -icount <= bsize && forall k :: ebuf - i <= k < ebuf ==> buf[k] != delim
      modifies this`gbuf, buf
      ensures gbuf == bbuf && buf.Length == ebuf && offset == fid.pos && (i > 0 ==> Holds(bbuf, i, Pos()))
      ensures forall k :: bbuf <= k < bbuf + i ==> buf[k] != delim
    {
      if i < bsize {
        Memmove(buf, bbuf, ebuf - i, i);
      }
      gbuf := bbuf;
    }

    /** Copy the remainder down and append to it, looking for the delimiter;
        `line` is 0 if the file ends or the buffer fills up first. */
    method Append(i0: nat, delim: byte) returns (i: int, line: int)
      requires Valid() && i0 == -icount <= bsize && forall k :: ebuf - i0 <= k < ebuf ==> buf[k] != delim
      modifies this`gbuf, this`offset, buf, fid`pos
      ensures 0 <= line <= i && LineState(old(Pos()), i, line, delim) && state == old(state)
      ensures line == 0 && fid.prompt ==> i == bsize || fid.pos >= |fid.data|
    {
      hide LineState, Exact, GbufExact;
      ghost var p0 := Pos();
      CopyDown(i0, delim);
      i := i0;
      var ip := bbuf + i;
      while i < bsize
        invariant 0 <= i <= bsize && ip == bbuf + i
        invariant gbuf == bbuf && buf.Length == ebuf && offset == fid.pos == p0 + i
        invariant i > 0 ==> Holds(bbuf, i, p0)
        invariant forall k :: bbuf <= k < bbuf + i ==> buf[k] != delim
        decreases bsize - i
      {
        var j := fid.Read(buf, ip, bsize - i);
        if j <= 0 {
          FlushUp(i, p0, 0, delim);
          return i, 0;
        }
        offset := offset + j;
        i := i + j;
        var ep := Memchr(ip, j, delim);
        if ep != -1 {
          FlushUp(i, p0, ep - bbuf + 1, delim);
          return i, ep - bbuf + 1;
        }
        ip := ip + j;
      }
      FlushUp(bsize, p0, 0, delim);
      return bsize, 0;
    }

    /** Back up to the end of the buffer. */
    method FlushUp(i: nat, ghost p0: int, ghost line: int, ghost delim: byte)
      requires buf.Length == ebuf && 0 <= line <= i <= bsize && offset == fid.pos == p0 + i
      requires i > 0 ==> Holds(bbuf, i, p0)
      requires forall k :: bbuf <= k < (if line == 0 then bbuf + i else bbuf + line - 1) ==> buf[k] != delim
      requires line > 0 ==> buf[bbuf + line - 1] == delim
      modifies this`gbuf, buf
      ensures LineState(p0, i, line, delim)
    {
      if i < bsize {
        Memmove(buf, ebuf - i, bbuf, i);
      }
      gbuf := ebuf - i;
    }

    /** What storing a number in an int makes of it. */
    static function Wrap32(n: int): int {
      (n + INT) % (2 * INT) - INT
    }

    /** The absolute position a seek asks for. */
    ghost function Target(to: int, base: int): int
      reads this
    {
      if base == 1 then Boffset() + to else if base == 2 then |fid.data| + to else to
    }

    /** Whether a seek to n is done by moving within the buffer; in ints, so the
        least of them counts as its own negative. */
    ghost predicate InBuffer(n: int, base: int)
      reads this
    {
      var i := Wrap32(n - offset);
      && base != 2 && n - Boffset() <= bsize && i <= 0
      && Wrap32(0 - i) <= if state == AtEof then 0 else ebuf - gbuf
    }

    /** The next bytes are the file's from n on: those in the buffer, and then
        those that are read. */
    ghost predicate Delivers(n: int)
      reads `state, `offset, `icount, buf, fid`pos
    {
      && state == Active && offset == fid.pos && Pos() == n >= 0
      && buf.Length == ebuf && 0 <= -icount <= ebuf
      && (icount < 0 ==> offset <= |fid.data| && buf[ebuf + icount..] == fid.data[n..offset])
    }

    /** What a short read has left in front of the good bytes, from n on, happens
        to be what the file has there. */
    ghost predicate Chance(n: int)
      reads `offset, `good, buf
    {
      && 0 <= n && offset - good <= |fid.data|
      && forall k :: n <= k < offset - good && 0 <= k + ebuf - offset < buf.Length ==> buf[k + ebuf - offset] == fid.data[k]
    }

    /** Moving within the buffer, seen afterwards. */
    lemma Within(n: int)
      requires Exact() && 0 <= -icount <= ebuf && state == Active && Pos() == n
      ensures Delivers(n) <==> offset - good <= n || Chance(n)
      ensures Delivers(n) && icount < 0 ==> -icount <= offset <= |fid.data|
      ensures Delivers(n) && icount < 0 ==> forall k :: ebuf + icount <= k < ebuf ==> buf[k] == fid.data[k + offset - ebuf]
    {
      if icount < 0 && 0 <= n && offset <= |fid.data| {
        var x, y := buf[ebuf + icount..], fid.data[n..offset];
        if x == y {
          forall k | ebuf + icount <= k < ebuf
            ensures buf[k] == fid.data[k + offset - ebuf]
          {
            assert x[k - ebuf - icount] == y[k - ebuf - icount];
          }
        }
        if forall k :: ebuf + icount <= k < ebuf ==> buf[k] == fid.data[k + offset - ebuf] {
          assert x == y;
        }
      }
    }

    /** A distance that is less than 2^31 by the length of the buffer fits. */
    lemma NearSeekFits(n: int)
      requires Loose() && state != Inactive && ebuf - INT < n - Boffset()
      ensures -INT < n - offset
    {
    }

    /** The read side of Bseek: base 0 from the start, 1 from here, 2 from the
        end.  It moves within the buffer if [gbuf, ebuf) reaches back that far,
        without asking if those bytes are the file's, or if the distance fits an
        int.  The bytes that follow are the right ones exactly when it does not
        do so, or the distance from the end of the buffer is above the least int
        and what is stale of those bytes is right by chance.  Nothing is stale
        before Bgetc has met the end of the file, or right after that. */
    method Bseek(to: int, base: int) returns (r: int)
      requires Valid() && 0 <= base <= 2
      modifies this, fid`pos
      ensures old(state) == Inactive ==> r == BEOF && Pos() == old(Pos())
      ensures old(state) != Inactive ==> state == Active && (ended ==> old(ended))
      ensures old(state) != Inactive && Delivers(r) ==> Valid() && -icount <= bsize
      ensures var n := old(Target(to, base));
              old(state) != Inactive && !old(InBuffer(n, base)) ==>
                && icount == 0 && gbuf == ebuf && !ended
                && (if n >= 0 then r == offset == n && Delivers(n) else r == offset == -1 && fid.pos == old(fid.pos))
      ensures var n := old(Target(to, base));
              old(state) != Inactive && old(InBuffer(n, base)) ==>
                && r == n && icount == Wrap32(n - offset) && offset == old(offset) && (-INT < n - offset ==> Loose())
                && (Delivers(n) <==> -INT < n - offset && (old(offset - good) <= n || old(Chance(n))))
      ensures var n := old(Target(to, base));
              old(state) != Inactive && 0 <= n && (base == 2 || (-INT < n - old(offset)
                  && (!old(ended) || old(state) == AtEof))) ==>
                r == n && Delivers(n)
    {
      hide Exact, Delivers, Chance, GbufExact, Wrap32;
      if state == Inactive { return BEOF; }
      ghost var n := Target(to, base);
      if state == AtEof { Wake(n, base); }
      r := to;
      var base' := base;
      if base' == 1 {
        r := r + Boffset();
        base' := 0;
      }
      if base' == 0 {
        var here := Stay(r);
        if here { return; }
      }
      r := Leave(r, base');
    }

    /** A seek ends the end of the file. */
    method Wake(ghost n: int, ghost base: int)
      requires Valid() && state == AtEof
      modifies this`state, this`icount, this`gbuf, this`ended
      ensures Valid() && state == Active && icount == 0 && gbuf == ebuf && !ended
      ensures InBuffer(n, base) == old(InBuffer(n, base)) && Chance(n) == old(Chance(n))
    {
      state := Active;
      icount := 0;
      gbuf, ended := ebuf, false;
    }

    /** Try to move within the buffer. */
    method Stay(n: int) returns (here: bool)
      requires Valid() && state == Active
      modifies this`icount, this`good
      ensures Exact() && here == old(InBuffer(n, 0))
      ensures here ==>
                && icount == Wrap32(n - offset) && (-INT < n - offset ==> Loose() && -icount <= bsize)
                && (Delivers(n) ==> Valid() && -icount <= bsize)
                && (Delivers(n) <==> -INT < n - offset && (old(offset - good) <= n || old(Chance(n))))
      ensures here && !ended && -INT < n - offset ==> Delivers(n)
    {
      hide Exact, Delivers, Chance, Wrap32;
      var d := n - Boffset();
      icount := Wrap32(icount + d);
      here := d <= bsize && icount <= 0 && ebuf - gbuf >= Wrap32(0 - icount);
      if here {
        Fits(n);
        if -INT < n - offset {
          Within(n);
          Raise(n);
        }
      }
    }

    lemma Fits(n: int)
      requires icount == Wrap32(n - offset) <= 0 && n - offset < INT
      ensures -INT < n - offset ==> Pos() == n && Wrap32(0 - icount) == -icount
      ensures Delivers(n) ==> -INT < n - offset
    {
    }

    /** Bytes that are right by chance are good from now on. */
    ghost method Raise(n: int)
      requires Loose() && state == Active && Pos() == n
      modifies this`good
      ensures Loose() && Delivers(n) == old(Delivers(n)) && (Delivers(n) ==> Valid())
    {
      hide Delivers, Chance;
      if Delivers(n) && good < -icount {
        Within(n);
        good := -icount;
      }
    }

    /** The seek of the file itself. */
    method Leave(n: int, base: int) returns (r: int)
      requires Exact() && state == Active && (base == 0 || base == 2)
      modifies this`icount, this`gbuf, this`ended, this`offset, this`good, fid`pos
      ensures var to := if base == 0 then n else |fid.data| + n;
              && icount == 0 && gbuf == ebuf && !ended
              && (if to >= 0 then r == offset == to && Delivers(to) && Valid()
                  else r == offset == -1 && fid.pos == old(fid.pos) && !Delivers(r))
    {
      r := fid.Seek(n, base);
      icount := 0;
      gbuf, ended := ebuf, false;
      offset := r;
      good := 0;
    }
  }

  // ------------------------------------------------------------------
  // Whole runs

  datatype Op = GetByte | GetBytes(count: nat) | GetLine(delim: byte)

  function Left(data: seq<byte>, at: int): nat {
    if at < |data| then |data| - at else 0
  }

  /** How long the line at `at` is, with its delimiter; 0 if the file has none
      there any more. */
  function LineLength(data: seq<byte>, at: nat, delim: byte): nat
    decreases |data| - at
  {
    if at >= |data| then 0
    else if data[at] == delim then 1
    else
      var n := LineLength(data, at + 1, delim);
      if n == 0 then 0 else n + 1
  }

  lemma {:induction false} LineLengthIs(data: seq<byte>, at: nat, delim: byte, n: nat)
    requires at + n <= |data| && forall k :: at <= k < at + n ==> data[k] != delim
    ensures at + n < |data| && data[at + n] == delim ==> LineLength(data, at, delim) == n + 1
    ensures LineLength(data, at, delim) == 0 || LineLength(data, at, delim) > n
    ensures at + n == |data| ==> LineLength(data, at, delim) == 0
    decreases n
  {
    if n > 0 { LineLengthIs(data, at + 1, delim, n - 1); }
  }

  lemma LineBeyond(data: seq<byte>, at: int, delim: byte)
    ensures at >= |data| ==> LineLength(data, at, delim) == 0
  {
  }

  /** How many bytes an operation hands out at that position when every read
      gives all it can: a line only if it fits the buffer. */
  function Due(op: Op, data: seq<byte>, at: nat, size: Size): nat {
    match op
    case GetByte => if at < |data| then 1 else 0
    case GetBytes(count) => if count <= Left(data, at) then count else Left(data, at)
    case GetLine(delim) => if LineLength(data, at, delim) <= size then LineLength(data, at, delim) else 0
  }

  /** What an operation may hand out in any case: no more than it is asked for,
      and of lines nothing but one that ends with its only delimiter. */
  predicate Allowed(op: Op, more: seq<byte>) {
    match op
    case GetByte => |more| <= 1
    case GetBytes(count) => |more| <= count
    case GetLine(delim) => more == [] || (more[|more| - 1] == delim && forall k :: 0 <= k < |more| - 1 ==> more[k] != delim)
  }

  /** Right is what is allowed and comes from the file at that place, and all
      that is due if reads are prompt. */
  ghost predicate Right(op: Op, file: File, size: Size, at: int, more: seq<byte>) {
    && Allowed(op, more)
    && (more != [] ==> 0 <= at && at + |more| <= |file.data| && more == file.data[at..at + |more|])
    && (file.prompt && size > 0 && at >= 0 ==> |more| == Due(op, file.data, at, size))
  }

  /** With prompt reads nothing fails, and the end is the end. */
  ghost predicate Sane(b: Biobuf)
    reads b
  {
    b.fid.prompt && b.bsize > 0 ==> b.state == Active || (b.state == AtEof && b.Pos() >= |b.fid.data|)
  }

  /** One operation, and the bytes it hands out; `eof` if it was a Bgetc that
      had none. */
  method Deliver(b: Biobuf, op: Op) returns (more: seq<byte>, eof: bool)
    requires b.Valid() && -b.icount <= b.bsize && Sane(b)
    modifies b, b.buf, b.fid`pos
    ensures b.Valid() && -b.icount <= b.bsize && Sane(b) && (b.ended ==> old(b.ended) || eof)
    ensures b.Pos() == old(b.Pos()) + |more| && Right(op, b.fid, b.bsize, old(b.Pos()), more)
    ensures eof <==> op == GetByte && more == []
    ensures old(b.offset) <= |b.fid.data| ==> b.offset <= |b.fid.data|
  {
    hide Biobuf.Exact, LineLength;
    eof := false;
    match op {
      case GetByte =>
        b.AtMost();
        var c := b.Bgetc();
        more, eof := if c == BEOF then [] else [c], c == BEOF;
      case GetBytes(count) =>
        more := DeliverBytes(b, count);
      case GetLine(delim) =>
        more := DeliverLine(b, delim);
    }
    b.InFile();
  }

  method DeliverBytes(b: Biobuf, count: nat) returns (more: seq<byte>)
    requires b.Valid() && -b.icount <= b.bsize && Sane(b)
    modifies b, b.buf, b.fid`pos
    ensures b.Valid() && -b.icount <= b.bsize && Sane(b) && (b.ended ==> old(b.ended))
    ensures b.Pos() == old(b.Pos()) + |more| && Right(GetBytes(count), b.fid, b.bsize, old(b.Pos()), more)
  {
    hide Biobuf.Exact, Biobuf.GbufExact;
    var dst := new byte[count];
    var r := b.Bread(dst, count);
    more := if r < 0 then [] else dst[..r];
    if more != [] { assert more == b.fid.data[old(b.Pos())..b.Pos()]; }
  }

  method DeliverLine(b: Biobuf, delim: byte) returns (more: seq<byte>)
    requires b.Valid() && -b.icount <= b.bsize && Sane(b)
    modifies b, b.buf, b.fid`pos
    ensures b.Valid() && -b.icount <= b.bsize && Sane(b) && (b.ended ==> old(b.ended))
    ensures b.Pos() == old(b.Pos()) + |more| && Right(GetLine(delim), b.fid, b.bsize, old(b.Pos()), more)
    ensures old(b.offset) <= |b.fid.data| ==> b.offset <= |b.fid.data|
  {
    hide Biobuf.Exact, LineLength;
    ghost var at := b.Pos();
    var ip := b.Brdline(delim);
    if ip == -1 {
      more := [];
      b.NoneThere(delim);
      LineBeyond(b.fid.data, at, delim);
    } else {
      more := b.buf[ip..ip + b.rdline];
      assert more == b.fid.data[at..b.Pos()];
      assert forall k :: 0 <= k < |more| ==> more[k] == b.buf[ip + k] && more[k] == b.fid.data[at + k];
      LineLengthIs(b.fid.data, at, delim, |more| - 1);
    }
    b.InFile();
  }

  /** The pieces put together. */
  function Joined(parts: seq<seq<byte>>): seq<byte> {
    if parts == [] then [] else Joined(parts[..|parts| - 1]) + parts[|parts| - 1]
  }

  /** However reads by byte, by block and by line are mixed, and however short
      the file's own reads come up, the bytes delivered are the file's, in order
      and each once, and Boffset counts them.  Each operation delivers what is
      right at its position. */
  method Session(file: File, size: Size, ops: seq<Op>) returns (b: Biobuf, parts: seq<seq<byte>>)
    requires file.pos == 0
    modifies file`pos
    ensures |Joined(parts)| <= |file.data| && Joined(parts) == file.data[..|Joined(parts)|]
    ensures |parts| == |ops| && forall i :: 0 <= i < |ops| ==> Right(ops[i], file, size, |Joined(parts[..i])|, parts[i])
    ensures b.state != Inactive ==> b.Boffset() == |Joined(parts)|
    ensures b.Valid() && b.offset <= |file.data|
  {
    hide Right, Joined, Sane, Biobuf.Exact;
    b := new Biobuf(file, size);
    SaneNew(b);
    parts := [];
    JoinedNone();
    for i := 0 to |ops|
      invariant b.fid == file && b.bsize == size && fresh(b) && fresh(b.buf) && b.Valid() && -b.icount <= b.bsize && Sane(b)
      invariant |parts| == i && b.Pos() == |Joined(parts)| <= |file.data| && Joined(parts) == file.data[..|Joined(parts)|]
      invariant b.offset <= |file.data|
      invariant forall k :: 0 <= k < i ==> Right(ops[k], file, size, |Joined(parts[..k])|, parts[k])
    {
      var more, eof := Deliver(b, ops[i]);
      JoinedMore(parts, more, file, ops[i], size);
      parts := parts + [more];
    }
  }

  lemma JoinedNone()
    ensures Joined([]) == []
  {
  }

  lemma SaneNew(b: Biobuf)
    requires b.state == Active
    ensures Sane(b)
  {
  }

  lemma JoinedMore(parts: seq<seq<byte>>, more: seq<byte>, file: File, op: Op, size: Size)
    requires |Joined(parts)| <= |file.data| && Joined(parts) == file.data[..|Joined(parts)|]
    requires Right(op, file, size, |Joined(parts)|, more)
    ensures Joined(parts + [more]) == Joined(parts) + more
    ensures |Joined(parts + [more])| <= |file.data| && Joined(parts + [more]) == file.data[..|Joined(parts + [more])|]
    ensures (parts + [more])[..|parts|] == parts && forall k :: 0 <= k < |parts| ==> (parts + [more])[..k] == parts[..k]
  {
    assert (parts + [more])[..|parts|] == parts;
    assert Joined(parts) + more == file.data[..|Joined(parts) + more|];
  }

  /** With prompt reads, as many Bgetcs as there are bytes deliver the file, and
      more of them nothing else. */
  lemma {:induction false} ByteByByte(file: File, size: Size, n: nat, parts: seq<seq<byte>>)
    requires file.prompt && size > 0 && |parts| == n
    requires forall i :: 0 <= i < n ==> Right(GetByte, file, size, |Joined(parts[..i])|, parts[i])
    ensures |Joined(parts)| == if n <= |file.data| then n else |file.data|
  {
    if n > 0 {
      var front := parts[..n - 1];
      forall i | 0 <= i < n - 1
        ensures front[..i] == parts[..i] && front[i] == parts[i]
      {
      }
      ByteByByte(file, size, n - 1, front);
    }
  }

  /** What is done next: an operation, or a seek. */
  datatype Move = Do(op: Op) | Seek(to: int, base: int)

  /** What came of a move: the position Boffset told before and tells after it,
      and the bytes delivered.  A seek that is not safe is left out. */
  datatype Got = Got(at: int, to: int, more: seq<byte>, done: bool)

  ghost predicate Came(move: Move, file: File, size: Size, g: Got) {
    match move
    case Do(op) => g.done && g.to == g.at + |g.more| && Right(op, file, size, g.at, g.more)
    case Seek(to, base) =>
      && g.more == [] && (base == 2 ==> g.done) && (base < 0 || base > 2 ==> !g.done)
      && if g.done then
           g.to == var n := if base == 1 then g.at + to else if base == 2 then |file.data| + to else to; if n >= 0 then n else -1
         else g.to == g.at
  }

  /** With seeks in between, too, all bytes delivered are the file's at the
      position Boffset has told before, each operation delivers what is right
      there, and each seek arrives.  The caller sees to it that a seek is not to
      more than 2^31 less the buffer's length back, and once Bgetc has reported
      the end of the file it seeks from the end only, which makes all seeks safe
      again; it stops at a seek or a read that fails, and goes through all moves
      if none does. */
  method Wander(file: File, size: Size, moves: seq<Move>) returns (got: seq<Got>)
    requires file.pos == 0
    modifies file`pos
    ensures |got| <= |moves| && forall i :: 0 <= i < |got| ==> Came(moves[i], file, size, got[i])
    ensures Chained(got)
    ensures forall i :: 0 <= i < |got| && moves[i].Seek? && Near(moves[i], got[i].at, size) && NoEnd(moves, got, i) ==> got[i].done
    ensures file.prompt && size > 0 && |got| < |moves| ==> got != [] && got[|got| - 1].to == -1
  {
    hide Right, Sane, Came, Chained, NoEnd, Near, Biobuf.Exact, Biobuf.GbufExact;
    var b := new Biobuf(file, size);
    SaneNew(b);
    got := [];
    assert Chained(got) by { ChainedNone(); }
    assert NoEnd(moves, got, 0) by { NoEndNone(moves, got); }
    var safe := true;
    for i := 0 to |moves|
      invariant b.fid == file && b.bsize == size && fresh(b) && fresh(b.buf) && b.Valid() && -b.icount <= b.bsize && Sane(b)
      invariant safe ==> !b.ended
      invariant |got| == i && 0 <= b.Pos() == Behind(got)
      invariant forall k :: 0 <= k < i ==> Came(moves[k], file, size, got[k])
      invariant Chained(got) && (NoEnd(moves, got, i) ==> safe)
      invariant forall k :: 0 <= k < i && moves[k].Seek? && Near(moves[k], got[k].at, size) && NoEnd(moves, got, k) ==> got[k].done
    {
      NotInactive(b);
      if b.state == Inactive { return; }
      var g;
      match moves[i] {
        case Do(op) =>
          var at := b.Boffset();
          var more, eof := Deliver(b, op);
          if eof { safe := false; }
          g := Got(at, at + |more|, more, true);
          DoCame(op, file, size, g);
        case Seek(to, base) =>
          g := SeekSafely(b, to, base, safe);
          safe := safe || (g.done && base == 2);
      }
      ChainedMore(got, g);
      NoEndMore(moves, got, g);
      got := got + [g];
      if g.to < 0 { return; }
    }
  }

  /** Each move starts where the one before it has led. */
  predicate Chained(got: seq<Got>) {
    forall i :: 0 <= i < |got| ==> got[i].at == Behind(got[..i])
  }

  /** The position after some moves. */
  function Behind(got: seq<Got>): int {
    if got == [] then 0 else got[|got| - 1].to
  }

  lemma ChainedNone()
    ensures Chained([])
  {
  }

  lemma ChainedMore(got: seq<Got>, g: Got)
    requires Chained(got) && g.at == Behind(got)
    ensures Chained(got + [g])
  {
    forall i | 0 <= i <= |got|
      ensures (got + [g])[..i] == got[..i]
    {
    }
    assert got[..|got|] == got;
  }

  /** A seek from the start, or from here, by less than 2^31 back, less the
      length of the buffer. */
  predicate Near(move: Move, at: int, size: Size)
    requires move.Seek?
  {
    (move.base == 0 || move.base == 1) && (if move.base == 1 then move.to else move.to - at) > 5 + size - 0x8000_0000
  }

  /** No Bgetc among the first i moves has come up with nothing. */
  predicate NoEnd(moves: seq<Move>, got: seq<Got>, i: nat)
    requires i <= |got| <= |moves|
  {
    forall j :: 0 <= j < i && moves[j] == Do(GetByte) ==> got[j].more != []
  }

  lemma NoEndNone(moves: seq<Move>, got: seq<Got>)
    requires |got| <= |moves|
    ensures NoEnd(moves, got, 0)
  {
  }

  lemma NoEndMore(moves: seq<Move>, got: seq<Got>, g: Got)
    requires |got| < |moves|
    ensures forall i :: 0 <= i <= |got| ==> NoEnd(moves, got + [g], i) == NoEnd(moves, got, i)
    ensures NoEnd(moves, got + [g], |got| + 1) <==>
              NoEnd(moves, got, |got|) && (moves[|got|] == Do(GetByte) ==> g.more != [])
  {
  }

  lemma DoCame(op: Op, file: File, size: Size, g: Got)
    requires g.done && g.to == g.at + |g.more| && Right(op, file, size, g.at, g.more)
    ensures Came(Do(op), file, size, g)
  {
  }

  /** A seek from the end, or one not too far back with nothing stale. */
  method SeekSafely(b: Biobuf, to: int, base: int, safe: bool) returns (g: Got)
    requires b.Valid() && -b.icount <= b.bsize && Sane(b) && (safe ==> !b.ended) && b.state != Inactive && b.Pos() >= 0
    modifies b, b.fid`pos
    ensures g.at == old(b.Pos()) && Came(Seek(to, base), b.fid, b.bsize, g) && g.to >= -1
    ensures g.to >= 0 ==> b.Valid() && -b.icount <= b.bsize && Sane(b) && b.Pos() == g.to
    ensures (safe || (g.done && base == 2)) && g.to >= 0 ==> !b.ended
    ensures safe && Near(Seek(to, base), old(b.Pos()), b.bsize) ==> g.done
  {
    hide Biobuf.Exact, Biobuf.Delivers, Biobuf.Chance;
    var at := b.Boffset();
    var far := (if base == 1 then to else to - at) <= b.ebuf - INT;
    if base == 2 || ((base == 0 || base == 1) && safe && !far) {
      b.NotBefore(b.Target(to, base), base);
      var r := b.Bseek(to, base);
      b.ArrivedAt(r);
      g := Got(at, r, [], true);
    } else {
      g := Got(at, at, [], false);
    }
  }

  lemma NotInactive(b: Biobuf)
    requires Sane(b)
    ensures b.fid.prompt && b.bsize > 0 ==> b.state != Inactive
  {
  }

  /** The furthest of some positions. */
  function Furthest(at: seq<nat>): nat {
    if at == [] then 0
    else
      var far := Furthest(at[..|at| - 1]);
      if at[|at| - 1] > far then at[|at| - 1] else far
  }

  /** One step, from position `at` when the furthest was `far`. */
  ghost predicate Stepped(on: bool, file: File, at: nat, far: nat, c: Option<byte>, to: nat) {
    if on then
      if c.Some? then at < |file.data| && c.value == file.data[at] && to == at + 1
      else to == at && (file.prompt ==> at >= |file.data|)
    else
      && c == None
      && var may := at > 0 && at + BUNGETSIZE > far;
         if may && file.prompt then to == at - 1 else to == at || (may && to == at - 1)
  }

  /** Bgetc (true) and Bungetc (false) at will, as long as the reader never
      falls more than Bungetsize bytes behind the furthest byte delivered: each
      byte got is the file's byte for its position, whether it comes for the
      first time or again, across refills and the end of the file.  `at` are the
      positions before and after the steps; with prompt reads each step goes
      where it should. */
  method BackAndForth(file: File, size: Size, steps: seq<bool>) returns (at: seq<nat>, got: seq<Option<byte>>)
    requires file.pos == 0 && size >= BUNGETSIZE
    modifies file`pos
    ensures |got| == |steps| && |at| == |steps| + 1 && at[0] == 0
    ensures forall i :: 0 <= i < |steps| ==> Stepped(steps[i], file, at[i], Furthest(at[..i + 1]), got[i], at[i + 1])
  {
    hide Furthest, Biobuf.Exact;
    var b := new Biobuf(file, size);
    at, got := [0], [];
    var p, far := 0, 0;
    FurthestOne();
    for i := 0 to |steps|
      invariant b.fid == file && b.bsize == size && fresh(b) && fresh(b.buf) && b.Valid() && Sane(b)
      invariant |at| == i + 1 && |got| == i && at[0] == 0 && b.Pos() == p == at[i] <= far == Furthest(at)
      invariant b.offset - b.good <= (if far <= BUNGETSIZE then 0 else far - BUNGETSIZE)
      invariant forall k :: 0 <= k < i ==> Stepped(steps[k], file, at[k], Furthest(at[..k + 1]), got[k], at[k + 1])
    {
      ghost var was := at;
      var c := None;
      if steps[i] {
        b.AtMost();
        var x := b.Bgetc();
        if x != BEOF {
          c, p := Some(x), p + 1;
        }
      } else if p > 0 && p > far - BUNGETSIZE {
        var r := b.Bungetc();
        p := if r == 1 then p - 1 else p;
      }
      assert Stepped(steps[i], file, at[i], far, c, p);
      far := if p > far then p else far;
      FurthestMore(at, p);
      at, got := at + [p], got + [c];
    }
  }

  lemma FurthestOne()
    ensures Furthest([0]) == 0
  {
    assert [0][..0] == [];
  }

  lemma FurthestMore(at: seq<nat>, p: nat)
    ensures Furthest(at + [p]) == if p > Furthest(at) then p else Furthest(at)
    ensures (at + [p])[..|at|] == at && forall k :: 0 <= k <= |at| ==> (at + [p])[..k] == at[..k]
  {
    assert (at + [p])[..|at|] == at;
  }

  /** A file has been read buffer by buffer, and the last f bytes, from q on,
      have come last.  In front of them, and of those kept, is what that read
      put there first, and then what is left of the buffer before. */
  ghost predicate ReadUpTo(b: Biobuf, q: nat, f: nat)
    reads b, b.buf
  {
    && b.state == Active && b.bsize >= BUNGETSIZE && b.buf.Length == b.ebuf
    && b.offset == q + f <= |b.fid.data| && f <= b.bsize && (q > 0 ==> q >= b.bsize)
    && (if f == 0 then q == 0 && b.icount == 0 else f == b.bsize || b.offset == |b.fid.data|)
    && b.good == f + (if q == 0 then 0 else BUNGETSIZE)
    && forall k :: b.bbuf <= k < b.ebuf - f - BUNGETSIZE && (q > 0 || k < b.bbuf + f) ==>
         b.buf[k] == b.fid.data[k - b.bbuf + if k < b.bbuf + f then q else q - b.bsize]
  }

  lemma NextBuffer(q: nat, size: Size)
    requires size > 0 && q % size == 0
    ensures (q + size) % size == 0
  {
    var a := q / size;
    assert q + size == (a + 1) * size + 0;
    Words.DivMod(a + 1, size, 0);
  }

  /** The whole file by Bgetc. */
  method ReadAll(file: File, size: Size) returns (b: Biobuf, ghost q: nat, ghost f: nat)
    requires file.pos == 0 && file.prompt && size >= BUNGETSIZE && file.data != []
    modifies file`pos
    ensures b.Valid() && b.fid == file && b.bsize == size && fresh(b) && fresh(b.buf)
    ensures ReadUpTo(b, q, f) && q + f == |file.data| && f > 0 && q % size == 0 && b.icount == 0
  {
    b := new Biobuf(file, size);
    q, f := 0, 0;
    for i := 0 to |file.data|
      invariant b.Valid() && b.fid == file && b.bsize == size && fresh(b) && fresh(b.buf)
      invariant ReadUpTo(b, q, f) && b.Pos() == i && q % size == 0 && (i > 0 ==> f > 0)
    {
      q, f := ReadOne(b, q, f);
    }
  }

  method ReadOne(b: Biobuf, ghost q0: nat, ghost f0: nat) returns (ghost q: nat, ghost f: nat)
    requires b.Valid() && b.fid.prompt && ReadUpTo(b, q0, f0) && q0 % b.bsize == 0 && b.Pos() < |b.fid.data|
    modifies b, b.buf, b.fid`pos
    ensures b.Valid() && ReadUpTo(b, q, f) && q % b.bsize == 0 && f > 0 && b.Pos() == old(b.Pos()) + 1
  {
    ghost var filling := b.icount == 0;
    var c := b.Bgetc();
    q, f := q0, f0;
    if filling {
      if f0 > 0 { NextBuffer(q0, b.bsize); }
      q, f := q0 + f0, b.offset - old(b.offset);
    }
  }

  /** The end of the file is met, and the reader goes on. */
  method GoOn(b: Biobuf, ghost q: nat, ghost f: nat)
    requires b.Valid() && b.fid.prompt && ReadUpTo(b, q, f) && b.icount == 0 && b.offset == |b.fid.data|
    modifies b, b.buf, b.fid`pos
    ensures b.Valid() && b.state == Active && b.icount == 0 && b.offset == |b.fid.data| && b.gbuf == b.bbuf
    ensures b.good == old(if b.good <= b.bsize then b.good else b.bsize)
    ensures forall k :: b.bbuf <= k < b.ebuf ==> b.buf[k] == old(b.buf[k])
  {
    var c := b.Bgetc();
    c := b.Bgetc();
  }

  /** Where the byte comes from that Bgetc hands out after a seek to n by a
      reader that has gone on after the end of a file of len bytes, the last
      `last` of them read at once: from the right place but for those places of
      the last buffer's length that are more than Bungetsize before the last
      read. */
  function Shown(n: nat, len: nat, size: nat, last: nat): int {
    if n < len - size || len - last - BUNGETSIZE <= n then n
    else if n - (len - size) < last then n + size - last
    else n - last
  }

  /** At the end of the file Bgetc declares the whole buffer good, whatever is in
      it; a reader that goes on and then seeks back gets a byte of another place
      exactly for the places told by Shown. */
  method SeekAfterEnd(file: File, size: Size, n: nat) returns (r: int, c: int, ghost last: nat)
    requires file.pos == 0 && file.prompt && size >= BUNGETSIZE && n < |file.data| < n + INT
    modifies file`pos
    ensures 0 < last <= size && last <= |file.data| && (|file.data| - last) % size == 0
    ensures r == n && 0 <= Shown(n, |file.data|, size, last) < |file.data|
    ensures c == file.data[Shown(n, |file.data|, size, last)] as int
  {
    hide Shown, ReadUpTo, Biobuf.Exact;
    var b;
    ghost var q;
    b, q, last := ReadAll(file, size);
    ghost var from := Shown(n, |file.data|, size, last);
    Place(b, q, last, n);
    GoOn(b, q, last);
    r, c := Return(b, n, file.data[from]);
  }

  /** What the buffer has for place n of the file. */
  lemma Place(b: Biobuf, q: nat, f: nat, n: nat)
    requires b.Valid() && ReadUpTo(b, q, f) && q + f == |b.fid.data| && n < |b.fid.data|
    ensures b.state == Active && b.buf.Length == b.ebuf && b.offset == |b.fid.data|
              && 0 <= Shown(n, b.offset, b.bsize, f) < b.offset
    ensures var from := Shown(n, b.offset, b.bsize, f);
            if n < b.offset - b.bsize then from == n else b.buf[b.ebuf + n - b.offset] == b.fid.data[from]
  {
  }

  method SeekBack(b: Biobuf, n: nat, ghost want: byte) returns (r: int)
    requires b.Valid() && b.fid.prompt && b.state == Active && b.icount == 0 && b.gbuf == b.bbuf
    requires n < b.offset == |b.fid.data| < n + INT && b.buf.Length == b.ebuf
    requires if n < b.offset - b.bsize then want == b.fid.data[n] else b.buf[b.ebuf + n - b.offset] == want
    modifies b, b.fid`pos
    ensures r == n && b.Loose() && b.state == Active && b.buf.Length == b.ebuf
    ensures if b.icount == 0 then b.Valid() && b.Pos() == n && want == b.fid.data[n] && b.fid.pos == n
              else b.buf[b.ebuf + b.icount] == want
  {
    hide Biobuf.Chance;
    r := b.Bseek(n, 0);
  }

  /** Back to n and on: the byte comes from the buffer if it reaches that far. */
  method Return(b: Biobuf, n: nat, ghost want: byte) returns (r: int, c: int)
    requires b.Valid() && b.fid.prompt && b.state == Active && b.icount == 0 && b.gbuf == b.bbuf
    requires n < b.offset == |b.fid.data| < n + INT && b.buf.Length == b.ebuf
    requires if n < b.offset - b.bsize then want == b.fid.data[n] else b.buf[b.ebuf + n - b.offset] == want
    requires b.bsize > 0
    modifies b, b.buf, b.fid`pos
    ensures r == n && c == want as int
  {
    hide Biobuf.Delivers, Biobuf.Chance, Biobuf.Exact;
    r := SeekBack(b, n, want);
    c := b.Bgetc();
  }

  /** A run where the byte is wrong: the fourth of ten bytes is asked for, with a
      buffer of eight, and the tenth comes. */
  method StaleSeek() returns (file: File, n: int, c: int)
    ensures n == 3 && file.data == [1, 2, 3, 4, 5, 6, 7, 8, 9, 10] && c == 10
  {
    file := new File([1, 2, 3, 4, 5, 6, 7, 8, 9, 10], true);
    ghost var last;
    n, c, last := SeekAfterEnd(file, 8, 3);
    assert last == 2;
  }

  /** Back by 2^31 from there, at the start of the file: the int that counts the
      unread bytes is then its own negative, and the seek is taken to be done in
      the buffer, which is empty. */
  method FarSeek(file: File, size: Size) returns (b: Biobuf, r: int)
    requires file.pos == 0
    modifies file`pos
    ensures r == 0 && b.Boffset() == 0 && b.icount == -0x8000_0000 && !b.Delivers(0)
  {
    b := new Biobuf(file, size);
    r := b.Bseek(INT, 0);
    r := b.Bseek(0, 0);
  }

  /** Bytes pushed back beyond a full buffer are lost to Brdline: with a buffer
      of 4, five bytes of eight read and two pushed back, the fourth is next; a
      line search that fails moves on to the fifth, and that is delivered. */
  method PushbackLost() returns (b: Biobuf, before: int, ip: int, after: int, c: int)
    ensures b.fid.data == [1, 2, 3, 4, 5, 6, 7, 8] && b.bsize == 4
    ensures before == 3 && ip == -1 && after == 4 && c == 5
  {
    b := FiveRead();
    var r := b.Bungetc();
    r := b.Bungetc();
    before := b.Boffset();
    assert forall k :: 0 <= k < |b.fid.data| ==> b.fid.data[k] != 9;
    ip := b.Brdline(9);
    after := b.Boffset();
    assert b.Pos() == 4 && b.fid.data[4] == 5 && b.icount != 0;
    c := b.Bgetc();
  }

  method FiveRead() returns (b: Biobuf)
    ensures fresh(b) && fresh(b.buf) && fresh(b.fid) && b.Valid() && b.bsize == 4 && b.fid.data == [1, 2, 3, 4, 5, 6, 7, 8]
    ensures b.state == Active && b.offset == 8 && b.icount == -3 && b.good == 8
  {
    var file := new File([1, 2, 3, 4, 5, 6, 7, 8], true);
    b := new Biobuf(file, 4);
    for i := 0 to 5
      invariant b.Valid() && b.fid == file && b.bsize == 4 && b.Pos() == i && b.state == Active && fresh(b) && fresh(b.buf)
      invariant i == 0 ==> b.icount == 0 && b.offset == 0
      invariant 0 < i <= 4 ==> b.offset == 4 && b.good == 4
      invariant i == 5 ==> b.offset == 8 && b.good == 8
    {
      var c := b.Bgetc();
    }
  }
}
