/**
 `writeimage` (libdraw/writeimage.c): the LZ77 compressor behind compressed
 image files.  Reading the image from the display and writing to the file are
 not modelled: the unloaded pixels are `mem[..n]`, the blocks go to `written`.
 */
module ImageWriter {
  import opened Basics
  import opened CompressedImage
  import opened ImageChains
  import opened ImageReference

  function CompBlockSize(bpl: nat): (r: nat)
    ensures r >= 6000 && r >= 2 * bpl && (r == 6000 || r == 2 * bpl)
  {
    if 2 * bpl < NCBLOCK then NCBLOCK else 2 * bpl
  }

  /** The picture a list of blocks stands for, each decoded on its own. */
  function Decoded(blocks: seq<Block>): Option<seq<byte>> {
    if blocks == [] then Some([])
    else
      match (Decoded(blocks[..|blocks| - 1]), Decode(blocks[|blocks| - 1].codes, []))
      case (Some(a), Some(b)) => Some(a + b)
      case _ => None
  }

  /** Row numbers strictly increase and each block holds just its rows. */
  predicate RowsFit(blocks: seq<Block>, miny: int, bpl: nat) {
    forall i :: 0 <= i < |blocks| ==> HoldsRows(blocks[i], RowBefore(blocks, i, miny), bpl)
  }

  function RowBefore(blocks: seq<Block>, i: nat, miny: int): int
    requires i <= |blocks|
  {
    if i == 0 then miny else blocks[i - 1].maxy
  }

  predicate HoldsRows(b: Block, from: int, bpl: nat) {
    && from < b.maxy
    && Decode(b.codes, []).Some?
    && |Decode(b.codes, []).value| == (b.maxy - from) * bpl
  }

  // ------------------------------------------------------------------
  // Matches

  ghost predicate Agree(mem: seq<byte>, a: nat, b: nat, len: nat)
    requires a + len <= |mem| && b + len <= |mem|
  {
    mem[a..a + len] == mem[b..b + len]
  }

  /** No window position repeats more than `len` bytes from p on, counting
      only repeats that are worth a code and end by `es`. */
  ghost predicate NoneLonger(mem: seq<byte>, lo: nat, p: nat, es: nat, len: nat)
    requires lo <= p && es <= |mem|
  {
    forall y: nat, m: nat :: lo <= y < p && len < m && NMATCH <= m && p + m <= es ==> !Agree(mem, y, p, m)
  }

  ghost predicate NoneNewer(mem: seq<byte>, q: nat, p: nat, len: nat)
    requires p + len <= |mem|
  {
    forall y: nat :: q < y < p ==> !Agree(mem, y, p, len)
  }

  /** The hash each position is filed under comes from its own three bytes. */
  ghost predicate HashesOf(mem: seq<byte>, n: nat, base: nat, hs: seq<nat>)
    requires n <= |mem|
  {
    forall y :: 0 <= y < |hs| && base + y + NMATCH <= n ==> hs[y] == HashAt(mem, base + y) as int
  }

  function HashAt(mem: seq<byte>, p: nat): bv16
    requires p + NMATCH <= |mem|
  {
    Hash3(mem[p], mem[p + 1], mem[p + 2])
  }

  lemma AgreeAt(mem: seq<byte>, a: nat, b: nat, len: nat)
    requires a + len <= |mem| && b + len <= |mem| && forall k :: b <= k < b + len ==> mem[k] == mem[k - b + a]
    ensures Agree(mem, a, b, len)
  {
  }

  lemma AgreeEach(mem: seq<byte>, a: nat, b: nat, len: nat)
    requires a + len <= |mem| && b + len <= |mem| && Agree(mem, a, b, len)
    ensures forall k :: b <= k < b + len ==> mem[k] == mem[k - b + a]
  {
    forall k | b <= k < b + len
      ensures mem[k] == mem[k - b + a]
    {
      assert mem[b..b + len][k - b] == mem[a..a + len][k - b];
    }
  }

  lemma Differ(mem: seq<byte>, a: nat, b: nat, len: nat, k: nat)
    requires k < len && a + len <= |mem| && b + len <= |mem| && mem[a + k] != mem[b + k]
    ensures !Agree(mem, a, b, len)
  {
    assert mem[a..a + len][k] != mem[b..b + len][k];
  }

  lemma AgreeShorter(mem: seq<byte>, a: nat, b: nat, len: nat, short: nat)
    requires short <= len && a + len <= |mem| && b + len <= |mem|
    requires Agree(mem, a, b, len)
    ensures Agree(mem, a, b, short)
  {
    assert mem[a..a + short] == mem[a..a + len][..short];
    assert mem[b..b + short] == mem[b..b + len][..short];
  }

  /** No position of chain hv beyond x repeats more than `len` bytes from p. */
  ghost predicate ChainNoneLonger(mem: seq<byte>, hs: seq<nat>, base: nat, hv: nat, lo: nat, x: int,
                                  es: nat, len: nat)
    requires es <= |mem|
  {
    var p := base + |hs|;
    p + len >= es ||
    forall y: nat :: lo <= y < |hs| && x < y && hs[y] == hv ==> !Agree(mem, base + y, p, len + 1)
  }

  ghost predicate ChainNoneNewer(mem: seq<byte>, hs: seq<nat>, base: nat, hv: nat, lo: nat, x: int, len: nat)
    requires base + |hs| + len <= |mem|
  {
    forall y: nat :: lo <= y < |hs| && x < y && hs[y] == hv ==> !Agree(mem, base + y, base + |hs|, len)
  }

  lemma MoreHashes(mem: seq<byte>, n: nat, base: nat, hs: seq<nat>, h: nat)
    requires n <= |mem| && HashesOf(mem, n, base, hs)
    requires base + |hs| + NMATCH <= n ==> h == HashAt(mem, base + |hs|) as int
    ensures HashesOf(mem, n, base, hs + [h])
  {
  }

  lemma NextHash(mem: seq<byte>, p: nat)
    requires p + 1 + NMATCH <= |mem|
    ensures HUpdate(HashAt(mem, p), mem[p + NMATCH]) == HashAt(mem, p + 1)
  {
    RunningHash(0, mem[p], mem[p + 1], mem[p + 2], mem[p + NMATCH]);
  }

  /** A position that repeats NMATCH bytes is on the chain that is searched. */
  lemma AgreeOnChain(mem: seq<byte>, n: nat, base: nat, hs: seq<nat>, y: nat, len: nat)
    requires y < |hs| && base + |hs| + len <= n <= |mem| && NMATCH <= len
    requires HashesOf(mem, n, base, hs) && Agree(mem, base + y, base + |hs|, len)
    ensures hs[y] == HashAt(mem, base + |hs|) as int
  {
    var a, b := mem[base + y..base + y + len], mem[base + |hs|..base + |hs| + len];
    assert a[0] == b[0] && a[1] == b[1] && a[2] == b[2];
  }

  /** Position x of the chain was compared; on to the next older one. */
  lemma ChainStep(mem: seq<byte>, hs: seq<nat>, base: nat, hv: nat, lo: nat, x: nat, es: nat, was: nat, len: nat)
    requires lo <= x < |hs| && hs[x] == hv && es <= |mem|
    requires ChainNoneLonger(mem, hs, base, hv, lo, x, es, was)
    requires was <= len && base + |hs| + len <= es
    requires base + |hs| + len == es || !Agree(mem, base + x, base + |hs|, len + 1)
    ensures ChainNoneLonger(mem, hs, base, hv, lo, Older(hs, lo, x, hv), es, len)
    ensures was < len ==> ChainNoneNewer(mem, hs, base, hv, lo, x, len)
  {
    var p, x' := base + |hs|, Older(hs, lo, x, hv);
    if p + len < es {
      forall y: nat | lo <= y < |hs| && x' < y && hs[y] == hv
        ensures !Agree(mem, base + y, p, len + 1)
      {
        if y > x && Agree(mem, base + y, p, len + 1) {
          AgreeShorter(mem, base + y, p, len + 1, was + 1);
          assert false;
        }
      }
    }
    if was < len {
      forall y: nat | lo <= y < |hs| && x < y && hs[y] == hv
        ensures !Agree(mem, base + y, p, len)
      {
        if Agree(mem, base + y, p, len) {
          AgreeShorter(mem, base + y, p, len, was + 1);
          assert false;
        }
      }
    }
  }

  /** The search so far: all of the chain beyond x has been compared, and
      `best` is the newest of the longest repeats found. */
  ghost predicate BestSoFar(mem: seq<byte>, hs: seq<nat>, base: nat, hv: nat, lo: nat, x: int,
                            es: nat, len: nat, best: nat) {
    && base + |hs| + len <= es <= |mem|
    && ChainNoneLonger(mem, hs, base, hv, lo, x, es, len)
    && (len > 0 ==>
          && lo <= best < |hs|
          && Agree(mem, base + best, base + |hs|, len)
          && ChainNoneNewer(mem, hs, base, hv, lo, best, len))
  }

  lemma BestStart(mem: seq<byte>, hs: seq<nat>, base: nat, hv: nat, lo: nat, es: nat)
    requires base + |hs| <= es <= |mem|
    ensures BestSoFar(mem, hs, base, hv, lo, Older(hs, lo, |hs|, hv), es, 0, 0)
  {
  }

  lemma BestStep(mem: seq<byte>, hs: seq<nat>, base: nat, hv: nat, lo: nat, x: nat,
                 es: nat, was: nat, best: nat, len: nat)
    requires BestSoFar(mem, hs, base, hv, lo, x, es, was, best)
    requires lo <= x < |hs| && hs[x] == hv
    requires len > was ==> base + |hs| + len <= es && Agree(mem, base + x, base + |hs|, len)
    requires var m := if len > was then len else was;
             base + |hs| + m == es || !Agree(mem, base + x, base + |hs|, m + 1)
    ensures len <= was ==> BestSoFar(mem, hs, base, hv, lo, Older(hs, lo, x, hv), es, was, best)
    ensures len > was ==> BestSoFar(mem, hs, base, hv, lo, Older(hs, lo, x, hv), es, len, x)
  {
    hide Agree;
    ChainStep(mem, hs, base, hv, lo, x, es, was, if len > was then len else was);
  }

  /** Nothing on the chain means nothing in the window. */
  lemma ChainIsWindow(mem: seq<byte>, n: nat, base: nat, hs: seq<nat>, hv: nat, lo: nat, es: nat, len: nat)
    requires lo <= |hs| && base + |hs| + len <= es <= n <= |mem| && HashesOf(mem, n, base, hs)
    requires base + |hs| + NMATCH <= n ==> hv == HashAt(mem, base + |hs|) as int
    requires ChainNoneLonger(mem, hs, base, hv, lo, NIL, es, len)
    ensures NoneLonger(mem, base + lo, base + |hs|, es, len)
  {
    var p := base + |hs|;
    forall z: nat, m: nat | base + lo <= z < p && len < m && NMATCH <= m && p + m <= es
      ensures !Agree(mem, z, p, m)
    {
      var y: nat := z - base;
      if Agree(mem, base + y, p, m) {
        AgreeOnChain(mem, n, base, hs, y, m);
        AgreeShorter(mem, base + y, p, m, len + 1);
        assert false;
      }
    }
  }

  lemma ChainIsWindowNewer(mem: seq<byte>, n: nat, base: nat, hs: seq<nat>, hv: nat, lo: nat, x: nat, len: nat)
    requires lo <= x < |hs| && base + |hs| + len <= n <= |mem| && NMATCH <= len && HashesOf(mem, n, base, hs)
    requires hv == HashAt(mem, base + |hs|) as int
    requires ChainNoneNewer(mem, hs, base, hv, lo, x, len)
    ensures NoneNewer(mem, base + x, base + |hs|, len)
  {
    var p := base + |hs|;
    forall z: nat | base + x < z < p
      ensures !Agree(mem, z, p, len)
    {
      var y: nat := z - base;
      if Agree(mem, base + y, p, len) {
        AgreeOnChain(mem, n, base, hs, y, len);
        assert false;
      }
    }
  }

  lemma BestIsWindow(mem: seq<byte>, n: nat, base: nat, hs: seq<nat>, hv: nat, lo: nat, x: int,
                     es: nat, len: nat, best: nat)
    requires lo <= |hs| && es <= n <= |mem| && HashesOf(mem, n, base, hs)
    requires base + |hs| + NMATCH <= n ==> hv == HashAt(mem, base + |hs|) as int
    requires BestSoFar(mem, hs, base, hv, lo, x, es, len, best) && (x == NIL || base + |hs| + len == es)
    ensures base + |hs| + len <= es
    ensures len > 0 ==> lo <= best < |hs| && Agree(mem, base + best, base + |hs|, len)
    ensures NoneLonger(mem, base + lo, base + |hs|, es, len)
    ensures len >= NMATCH ==> NoneNewer(mem, base + best, base + |hs|, len)
  {
    assert ChainNoneLonger(mem, hs, base, hv, lo, NIL, es, len);
    ChainIsWindow(mem, n, base, hs, hv, lo, es, len);
    if len >= NMATCH {
      ChainIsWindowNewer(mem, n, base, hs, hv, lo, best, len);
    }
  }

  /** Literals [a, b) of the text, appended to codes that decode up to a. */
  lemma DumpDecodes(mem: seq<byte>, start: nat, a: nat, b: nat, codes: seq<byte>)
    requires start <= a < b <= |mem| && b - a <= NDUMP
    requires Decode(codes, []) == Some(mem[start..a])
    ensures Decode(codes + DumpCode(mem[a..b]), []) == Some(mem[start..b])
  {
    hide Decode;
    DecodeAppend(codes, DumpCode(mem[a..b]), []);
    DecodeDump(mem[start..a], mem[a..b]);
    assert mem[start..a] + mem[a..b] == mem[start..b];
  }

  lemma SliceOfSlice(mem: seq<byte>, i: nat, j: nat, a: nat, b: nat)
    requires i <= a <= b <= j <= |mem|
    ensures mem[i..j][a - i..b - i] == mem[a..b]
  {
    var l, r := mem[i..j][a - i..b - i], mem[a..b];
    forall k | 0 <= k < b - a
      ensures l[k] == r[k]
    {
      assert l[k] == mem[i..j][a - i + k] == mem[i + (a - i + k)];
    }
  }

  lemma CopyYieldsText(mem: seq<byte>, start: nat, q: nat, p: nat, len: nat)
    requires start <= q < p && p + len <= |mem|
    requires Agree(mem, q, p, len)
    ensures CopyBack(mem[start..p], p - q, len) == mem[start..p + len]
  {
    hide CopyBack;
    var text := mem[start..p + len];
    SliceOfSlice(mem, start, p + len, q, q + len);
    SliceOfSlice(mem, start, p + len, p, p + len);
    assert text[..p - start] == mem[start..p] && text[..p - start + len] == text;
    CopyBackIs(text, q - start, p - start, len);
  }

  /** A repeat of the text at q, appended to codes that decode up to p. */
  lemma CopyDecodes(mem: seq<byte>, start: nat, q: nat, p: nat, len: nat, codes: seq<byte>)
    requires start <= q < p <= q + NMEM && p + len <= |mem| && NMATCH <= len <= NRUN
    requires Agree(mem, q, p, len)
    requires Decode(codes, []) == Some(mem[start..p])
    ensures Decode(codes + CopyCode(p - q - 1, len), []) == Some(mem[start..p + len])
  {
    hide Decode, CopyBack;
    DecodeAppend(codes, CopyCode(p - q - 1, len), []);
    DecodeCopy(mem[start..p], p - q - 1, len);
    CopyYieldsText(mem, start, q, p, len);
  }

  class Encoder {
    const mem: seq<byte>     // the pixels, and whatever follows them in memory
    const n: nat             // length of the pixels
    const bpl: nat           // bytes per line
    const chains: HashChains
    const outbuf: array<byte>
    const dumpbuf: array<byte>
    var outp: nat
    var ndump: nat
    var h: bv16
    var p: nat               // next byte to encode
    var line: nat            // first byte not in a whole encoded line
    ghost var start: nat     // start of the block
    ghost var done: nat      // everything before it is written or in the dump

    ghost predicate Shape() {
      && n + 2 <= |mem|
      && chains.Shape()
      && dumpbuf.Length == NDUMP
      && {outbuf, dumpbuf} !! {chains.next as object, chains.prev, chains.s}
      && outbuf != dumpbuf
    }

    /** What has been written or dumped decodes to what has been read. */
    ghost predicate Coded()
      reads this`outp, this`ndump, this`done, this`start, outbuf, dumpbuf
    {
      && outp <= outbuf.Length && ndump <= NDUMP == dumpbuf.Length
      && start + ndump <= done <= n <= |mem|
      && Decode(outbuf[..outp], []) == Some(mem[start..done - ndump])
      && dumpbuf[..ndump] == mem[done - ndump..done]
    }

    /** The dictionary holds the block's bytes so far. */
    ghost predicate Filed()
      reads this`start, this`p, this`h, chains, chains.next, chains.prev, chains.s
    {
      && chains.Valid()
      && start == chains.base && p == start + |chains.hs| <= n <= |mem|
      && HashesOf(mem, n, start, chains.hs)
      && h as int < NHASH
      && (p + NMATCH <= n ==> h == HashAt(mem, p))
    }

    /** Output not yet written counts as if it were. */
    ghost function Cost(): nat
      reads this`outp, this`ndump
    {
      outp + if ndump == 0 then 0 else ndump + 1
    }

    constructor (data: seq<byte>, after: seq<byte>, bpl: nat, ncblock: nat)
      requires |after| >= 2
      ensures Shape() && mem == data + after && n == |data| && this.bpl == bpl
      ensures outbuf.Length == ncblock && line == 0
      ensures fresh(outbuf) && fresh(dumpbuf)
      ensures fresh(chains) && fresh(chains.next) && fresh(chains.prev) && fresh(chains.s)
    {
      mem, n, this.bpl := data + after, |data|, bpl;
      chains := new HashChains();
      outbuf := new byte[ncblock];
      line := 0;
      dumpbuf := new byte[NDUMP];
    }

    /** The pending literals go out as one code; false if the block is full. */
    method FlushDump() returns (ok: bool)
      requires Shape() && Coded()
      modifies this`outp, this`ndump, outbuf
      ensures Coded()
      ensures ok ==> ndump == 0 && outp == old(Cost()) && outbuf[..outp] == old(outbuf[..outp] + Dumped(dumpbuf[..ndump]))
      ensures !ok ==> outp == old(outp) && outbuf[..] == old(outbuf[..]) && old(Cost()) > outbuf.Length
      ensures old(outp) <= outp && outbuf[..old(outp)] == old(outbuf[..outp])
    {
      hide Decode;
      if ndump == 0 {
        assert dumpbuf[..0] == [] && outbuf[..outp] + [] == outbuf[..outp];
        return true;
      }
      if outbuf.Length - outp < ndump + 1 { return false; }
      WriteDump(outp, ndump);
      DumpDecodes(mem, start, done - ndump, done, old(outbuf[..outp]));
      outp := outp + 1 + ndump;
      ndump := 0;
      return true;
    }

    method WriteDump(at: nat, k: nat)
      requires 0 < k <= NDUMP == dumpbuf.Length && at + 1 + k <= outbuf.Length && outbuf != dumpbuf
      modifies outbuf
      ensures outbuf[..at + 1 + k] == old(outbuf[..at]) + DumpCode(dumpbuf[..k])
      ensures outbuf[..at] == old(outbuf[..at])
    {
      outbuf[at] := k - 1 + 128;
      var i := 0;
      while i < k
        invariant 0 <= i <= k
        invariant outbuf[..at] == old(outbuf[..at]) && outbuf[at] == k - 1 + 128
        invariant forall j :: 0 <= j < i ==> outbuf[at + 1 + j] == dumpbuf[j]
      {
        outbuf[at + 1 + i] := dumpbuf[i];
        i := i + 1;
      }
      assert outbuf[at..at + 1 + k] == DumpCode(dumpbuf[..k]);
    }

    /** The byte at p joins the dump. */
    method AddLiteral() returns (ok: bool)
      requires Shape() && Coded() && p == done < n
      modifies this`outp, this`ndump, this`done, outbuf, dumpbuf
      ensures ok ==> Coded() && done == p + 1 && 0 < ndump && Cost() <= old(Cost()) + 2
      ensures ok ==>
                if old(ndump) == 128 then
                  outbuf[..outp] == old(outbuf[..outp] + Dumped(dumpbuf[..ndump])) && dumpbuf[..ndump] == [mem[p]]
                else
                  outbuf[..outp] == old(outbuf[..outp]) && dumpbuf[..ndump] == old(dumpbuf[..ndump]) + [mem[p]]
      ensures !ok ==> old(ndump) == 128 && old(Cost()) > outbuf.Length
      ensures old(outp) <= outp && outbuf[..old(outp)] == old(outbuf[..outp])
    {
      hide Decode;
      ok := true;
      if ndump == NDUMP {
        ok := FlushDump();
      }
      if ok {
        ghost var lits := dumpbuf[..ndump];
        dumpbuf[ndump] := mem[p];
        assert dumpbuf[..ndump + 1] == lits + [mem[p]];
        assert mem[done - ndump..done + 1] == mem[done - ndump..done] + [mem[p]];
        ndump := ndump + 1;
        done := done + 1;
      }
    }

    /** The `runlen` bytes at p repeat those at q. */
    method AddCopy(q: nat, runlen: nat) returns (ok: bool)
      requires Shape() && Coded() && p == done
      requires start <= q < p <= q + NMEM && p + runlen <= n && NMATCH <= runlen <= NRUN
      requires Agree(mem, q, p, runlen)
      modifies this`outp, this`ndump, this`done, outbuf
      ensures ok ==> Coded() && done == p + runlen && ndump == 0 && outp == old(Cost()) + 2
      ensures ok ==> outbuf[..outp] == old(outbuf[..outp] + Dumped(dumpbuf[..ndump])) + CopyCode(p - q - 1, runlen)
      ensures !ok ==> outbuf.Length < old(Cost()) + 2
      ensures old(outp) <= outp && outbuf[..old(outp)] == old(outbuf[..outp])
    {
      hide Decode;
      ok := FlushDump();
      if !ok { return; }
      var offs := p - q - 1;
      if outbuf.Length - outp < 2 { return false; }
      WriteCopy(outp, offs, runlen);
      CopyDecodes(mem, start, q, p, runlen, outbuf[..outp]);
      outp := outp + 2;
      done := done + runlen;
    }

    method WriteCopy(at: nat, offs: nat, runlen: nat)
      requires at + 2 <= outbuf.Length && offs < NMEM && NMATCH <= runlen <= NRUN
      modifies outbuf
      ensures outbuf[..at + 2] == old(outbuf[..at]) + CopyCode(offs, runlen)
      ensures outbuf[..at] == old(outbuf[..at])
    {
      outbuf[at] := (runlen - NMATCH) * 4 + offs / 256;
      outbuf[at + 1] := offs % 256;
    }

    /** Whether the `len` bytes at t0 are those at p, last one first. */
    method Repeats(t0: nat, len: nat) returns (same: bool)
      requires t0 < p && 0 < len && p + len <= |mem|
      ensures same <==> Agree(mem, t0, p, len)
    {
      hide Agree;
      var s, t: int := p + len - 1, t0 + len - 1;
      while s >= p
        invariant s - p == t - t0 && p - 1 <= s < p + len
        invariant forall k :: s < k < p + len ==> mem[k] == mem[k - p + t0]
        decreases s
      {
        if mem[s] != mem[t] {
          Differ(mem, t0, p, len, s - p);
          return false;
        }
        s, t := s - 1, t - 1;
      }
      AgreeAt(mem, t0, p, len);
      return true;
    }

    /** How far a repeat of `len` bytes goes on. */
    method Extend(t0: nat, len0: nat, es: nat) returns (len: nat)
      requires t0 < p && p + len0 <= es <= |mem| && Agree(mem, t0, p, len0)
      ensures len0 <= len && p + len <= es && Agree(mem, t0, p, len)
      ensures p + len == es || !Agree(mem, t0, p, len + 1)
    {
      AgreeEach(mem, t0, p, len0);
      hide Agree;
      var s, t := p + len0, t0 + len0;
      while s < es
        invariant s - p == t - t0 && p + len0 <= s <= es
        invariant forall k :: p <= k < s ==> mem[k] == mem[k - p + t0]
      {
        if mem[s] != mem[t] { break; }
        s, t := s + 1, t + 1;
      }
      len := s - p;
      AgreeAt(mem, t0, p, len);
      if s < es { Differ(mem, t0, p, len + 1, len); }
    }

    /** Compare at t, last byte of a longer repeat first; len > runlen if it is
        longer than the best so far. */
    method Compare(t0: nat, runlen: nat, es: nat) returns (len: nat)
      requires t0 < p && p + runlen <= es <= n <= |mem|
      ensures len > runlen ==> p + len <= es && Agree(mem, t0, p, len)
      ensures len > runlen ==> p + len == es || !Agree(mem, t0, p, len + 1)
      ensures len <= runlen ==> p + runlen == es || !Agree(mem, t0, p, runlen + 1)
    {
      hide Agree;
      if p + runlen >= es { return 0; }
      var same := Repeats(t0, runlen + 1);
      if !same { return 0; }
      len := Extend(t0, runlen + 1, es);
    }

    /** Compare at one node, and go on to the next. */
    method TryNode(hp: int, runlen: nat, es: nat, ghost x: nat, ghost best: nat) returns (t: nat, len: nat, hp': int)
      requires Shape() && Filed() && p < es <= n && p + runlen <= es
      requires Oldest(|chains.hs|) <= x < |chains.hs| && chains.hs[x] == h as int && hp == Node(x)
      requires BestSoFar(mem, chains.hs, start, h as int, Oldest(|chains.hs|), x, es, runlen, best)
      ensures t == start + x && hp' == Node(Older(chains.hs, Oldest(|chains.hs|), x, h as int))
      ensures len > runlen ==> p + len <= es
      ensures var lo, hv, longer := Oldest(|chains.hs|), h as int, len > runlen;
              BestSoFar(mem, chains.hs, start, hv, lo, Older(chains.hs, lo, x, hv), es, if longer then len else runlen,
                        if longer then x else best)
    {
      hide Linked, LinkedIn, HashesOf, HashAt, BestSoFar, Agree, Older, Node;
      HopFrom(chains.next[..], chains.prev[..], chains.s[..], start, chains.hs, Oldest(|chains.hs|), x);
      t, hp' := chains.s[hp], chains.next[hp];
      len := Compare(t, runlen, es);
      BestStep(mem, chains.hs, start, h as int, Oldest(|chains.hs|), x, es, runlen, best, len);
    }

    /** Walk the chain of p's hash, newest position first; x is where the walk
        ends, and best the position in the block of the best repeat. */
    method Search(es: nat) returns (runlen: nat, q: nat, ghost x: int, ghost best: nat)
      requires Shape() && Filed() && p < es <= n && es - p <= NRUN
      ensures p + runlen <= es && (x == NIL || runlen == NRUN)
      ensures BestSoFar(mem, chains.hs, start, h as int, Oldest(|chains.hs|), x, es, runlen, best)
      ensures runlen > 0 ==> q == start + best
    {
      hide Linked, LinkedIn, HashesOf, HashAt, Agree, Older, Hash3, HUpdate, Unused, BestSoFar, Node;
      ghost var hs, lo, hv := chains.hs, Oldest(|chains.hs|), h as int;
      runlen, q, best := 0, 0, 0;
      HeadOf(chains.next[..], chains.prev[..], chains.s[..], start, hs, lo, hv);
      var hp := chains.next[h as int];
      x := Older(hs, lo, |hs|, hv);
      BestStart(mem, hs, start, hv, lo, es);
      while hp != NIL
        invariant NIL <= x < |hs| && hp == Node(x) && (x != NIL ==> lo <= x && hs[x] == hv)
        invariant p + runlen <= es
        invariant BestSoFar(mem, hs, start, hv, lo, x, es, runlen, best)
        invariant runlen > 0 ==> q == start + best
        decreases x
      {
        var t, len;
        t, len, hp := TryNode(hp, runlen, es, x, best);
        x := Older(hs, lo, x, hv);
        if len > runlen {
          runlen, q, best := len, t, t - start;
          if len == NRUN { break; }
        }
      }
    }

    /** The longest repeat that ends by `es`, and the newest of that length. */
    method FindMatch(es: nat) returns (runlen: nat, q: nat)
      requires Shape() && Filed() && p < es <= n && es - p <= NRUN
      ensures p + runlen <= es
      ensures runlen > 0 ==> start <= q < p <= q + NMEM && Agree(mem, q, p, runlen)
      ensures NoneLonger(mem, start + Oldest(|chains.hs|), p, es, runlen)
      ensures runlen >= NMATCH ==> NoneNewer(mem, q, p, runlen)
    {
      hide Linked, HashesOf, HashAt, NoneLonger, NoneNewer, Agree, BestSoFar;
      ghost var x, best;
      runlen, q, x, best := Search(es);
      BestIsWindow(mem, n, start, chains.hs, h as int, Oldest(|chains.hs|), x, es, runlen, best);
    }

    /** File the positions up to `to`, moving p there. */
    method FileTo(to: nat)
      requires Shape() && Filed() && p <= to <= n
      modifies this`p, this`h, chains, chains.next, chains.prev, chains.s
      ensures Filed() && p == to
    {
      var end: int := to;
      while p != end
        invariant p <= end && Filed()
        decreases end - p
      {
        FileOne();
      }
    }

    method FileOne()
      requires Shape() && Filed() && p < n
      modifies this`p, this`h, chains, chains.next, chains.prev, chains.s
      ensures Filed() && p == old(p) + 1
    {
      hide Linked, HashesOf, HashAt;
      MoreHashes(mem, n, start, chains.hs, h as int);
      chains.Insert(h as int, p);
      if n - p > NMATCH {
        NextHash(mem, p);
        h := HUpdate(h, mem[p + NMATCH]);
      }
      p := p + 1;
    }

    /** What has been written of the line up to `eline`, and is still to come as
        the reference has it. */
    ghost function Written(eline: nat): seq<byte>
      requires start <= p <= eline <= |mem| && outp <= outbuf.Length && ndump <= 128 && ndump <= dumpbuf.Length
      reads this`start, this`p, this`outp, this`ndump, outbuf, dumpbuf
    {
      outbuf[..outp] + LineCodes(mem, start, p, eline, dumpbuf[..ndump])
    }

    /** One turn of the line loop: a literal or a repeat, then its filing. */
    method EncodeStep(eline: nat) returns (ok: bool)
      requires Shape() && Filed() && Coded() && p == done < eline <= n
      modifies this`outp, this`ndump, this`done, this`p, this`h, outbuf, dumpbuf
      modifies chains, chains.next, chains.prev, chains.s
      ensures ok ==> Filed() && Coded() && old(p) < p == done <= eline
      ensures ok ==> Cost() <= old(Cost()) + 2 * (p - old(p))
      ensures !ok ==> outbuf.Length < old(Cost()) + 2 * (eline - old(p))
      ensures ok ==> Written(eline) == old(Written(eline))
      ensures !ok ==> old(|Written(eline)|) > outbuf.Length
      ensures old(outp) <= outp && outbuf[..old(outp)] == old(outbuf[..outp])
    {
      hide Decode, HashesOf, HashAt, Linked, LineCodes;
      var runlen;
      ok, runlen := Emit(eline);
      if ok {
        FileTo(p + runlen);
      }
    }

    /** The search, and the literal or the repeat. */
    method Emit(eline: nat) returns (ok: bool, runlen: nat)
      requires Shape() && Filed() && Coded() && p == done < eline <= n
      modifies this`outp, this`ndump, this`done, outbuf, dumpbuf
      ensures ok ==> Filed() && Coded() && p < p + runlen == done <= eline
      ensures ok ==> Cost() <= old(Cost()) + 2 * runlen
      ensures !ok ==> outbuf.Length < old(Cost()) + 2 * (eline - p)
      ensures ok ==> outbuf[..outp] + LineCodes(mem, start, p + runlen, eline, dumpbuf[..ndump]) == old(Written(eline))
      ensures !ok ==> old(|Written(eline)|) > outbuf.Length
      ensures old(outp) <= outp && outbuf[..old(outp)] == old(outbuf[..outp])
    {
      hide Decode, HashesOf, HashAt, Linked, Agree, NoneLonger, NoneNewer, LineCodes, Best, Dumped, CopyCode;
      var es := if eline - p < NRUN then eline else p + NRUN;
      var q;
      runlen, q := FindMatch(es);
      StepIs(mem, start, p, eline, es, runlen, q, dumpbuf[..ndump], outbuf[..outp]);
      if runlen < NMATCH {
        ok := AddLiteral();
        runlen := 1;
      } else {
        ok := AddCopy(q, runlen);
      }
    }

    /** One line of the image; false if the block filled up in mid-line, which
        two bytes of room for each byte of the line rule out. */
    method EncodeLine() returns (ok: bool)
      requires Shape() && Filed() && Coded() && p == done && p + bpl <= n && ndump == 0
      modifies this`outp, this`ndump, this`done, this`p, this`h, outbuf, dumpbuf
      modifies chains, chains.next, chains.prev, chains.s
      ensures ok ==> Filed() && Coded() && p == done == old(p) + bpl && ndump == 0
      ensures ok ==> outp <= old(outp) + 2 * bpl
      ensures !ok ==> outbuf.Length < old(outp) + 2 * bpl
      ensures start == old(start)
      ensures ok <==> old(outp + |LineCodes(mem, start, p, p + bpl, [])|) <= outbuf.Length
      ensures ok ==> outbuf[..outp] == old(outbuf[..outp] + LineCodes(mem, start, p, p + bpl, []))
      ensures old(outp) <= outp && outbuf[..old(outp)] == old(outbuf[..outp])
    {
      hide Decode, HashesOf, HashAt, Linked, LineCodes, Dumped;
      ghost var all := outbuf[..outp] + LineCodes(mem, start, p, p + bpl, []);
      assert dumpbuf[..0] == [];
      var eline: nat := p + bpl;
      ghost var outp0, p0, kept := outp, p, outbuf[..outp];
      while p != eline
        invariant Filed() && Coded() && p == done && p0 <= p <= eline
        invariant Cost() <= outp0 + 2 * (p - p0)
        invariant outp0 <= outp && outbuf[..outp0] == kept && start == old(start)
        invariant Written(eline) == all
        decreases eline as int - p
      {
        ghost var k, before := outp, outbuf[..outp];
        ok := EncodeStep(eline);
        assert outbuf[..outp0] == outbuf[..k][..outp0] == before[..outp0];
        if !ok { return; }
      }
      LineDone(mem, start, p, dumpbuf[..ndump]);
      ok := FlushDump();
    }

    /** The hash of the first NMATCH bytes of a block. */
    method HashFrom(at: nat) returns (hash: bv16)
      requires at + 2 < |mem|
      ensures hash == HashAt(mem, at) && hash as int < NHASH
    {
      hash := 0;
      var k := 0;
      while k != NMATCH
        invariant 0 <= k <= NMATCH
        invariant k == 0 ==> hash == 0
        invariant k == 1 ==> hash == HUpdate(0, mem[at])
        invariant k == 2 ==> hash == HUpdate(HUpdate(0, mem[at]), mem[at + 1])
        invariant k == 3 ==> hash == HashAt(mem, at) && hash as int < NHASH
        decreases NMATCH - k
      {
        hash := HUpdate(hash, mem[at + k]);
        k := k + 1;
      }
    }

    /** A block starts with an empty dictionary and an empty buffer. */
    method StartBlock()
      requires Shape() && line < n
      modifies this`outp, this`ndump, this`done, this`p, this`h, this`start
      modifies chains, chains.next, chains.prev, chains.s
      ensures Filed() && Coded() && start == p == done == line && ndump == outp == 0
    {
      hide HUpdate, Hash3;
      chains.Clear(line);
      h := HashFrom(line);
      outp, ndump, p, done, start := 0, 0, line, line, line;
      assert mem[line..line] == [] && outbuf[..0] == [] && dumpbuf[..0] == [];
    }

    /** One more line in the block, if it fits. */
    method NextLine(ghost rows: nat, ghost left: nat) returns (ok: bool)
      requires Shape() && Filed() && Coded() && p == done == line < n && ndump == 0 && 0 < bpl
      requires rows <= left && line == start + rows * bpl && start + left * bpl == n
      requires outbuf[..outp] == RowsCodes(mem, start, bpl, rows)
      modifies this`outp, this`ndump, this`done, this`p, this`h, outbuf, dumpbuf
      modifies chains, chains.next, chains.prev, chains.s
      ensures rows < left && start + (rows + 1) * bpl == line + bpl <= |mem|
      ensures ok ==> Filed() && Coded() && p == done == line + bpl && ndump == 0 && 0 < outp
      ensures ok ==> outbuf[..outp] == RowsCodes(mem, start, bpl, rows + 1)
      ensures FitRows(mem, start, bpl, rows, left, outbuf.Length)
           == if ok then FitRows(mem, start, bpl, rows + 1, left, outbuf.Length) else rows
      ensures !ok ==> outbuf[..old(outp)] == old(outbuf[..outp]) && outbuf.Length < old(outp) + 2 * bpl
    {
      hide Decode, HashesOf, HashAt, Linked, Unused, LineCodes, RowsCodes, FitRows;
      MoreRows(left, rows, bpl);
      RowsMore(mem, start, bpl, rows, left, outbuf.Length);
      ok := EncodeLine();
      if ok { NotEmpty(mem, start, p, outbuf[..outp]); }
    }

    lemma NotEmpty(mem: seq<byte>, a: nat, b: nat, codes: seq<byte>)
      requires a < b <= |mem| && Decode(codes, []) == Some(mem[a..b])
      ensures codes != []
    {
    }

    /** Whole lines from `line` on until the image or the block is used up.
        What a line left half done wrote above `loutp` is abandoned. */
    method EncodeBlock(ghost left: nat) returns (rows: nat, loutp: nat)
      requires Shape() && 0 < bpl && 0 < left && line + left * bpl == n
      modifies this, outbuf, dumpbuf, chains, chains.next, chains.prev, chains.s
      ensures rows <= left && line == old(line) + rows * bpl <= n && loutp <= outbuf.Length
      ensures Decode(outbuf[..loutp], []) == Some(mem[old(line)..line])
      ensures rows == 0 ==> outbuf.Length < 2 * bpl
      ensures rows == 0 <==> loutp == 0
      ensures rows == FitRows(mem, old(line), bpl, 0, left, outbuf.Length)
      ensures outbuf[..loutp] == RowsCodes(mem, old(line), bpl, rows)
    {
      hide Decode, HashesOf, HashAt, Linked, Unused, LineCodes, RowsCodes, FitRows;
      RowsNone(mem, line, bpl);
      StartBlock();
      loutp, rows := 0, 0;
      while line != n
        invariant Filed() && Coded() && p == done == line && ndump == 0
        invariant start == old(line) && rows <= left && line == old(line) + rows * bpl
        invariant loutp == outp
        invariant rows == 0 <==> loutp == 0
        invariant outbuf[..loutp] == RowsCodes(mem, start, bpl, rows)
        invariant FitRows(mem, start, bpl, 0, left, outbuf.Length) == FitRows(mem, start, bpl, rows, left, outbuf.Length)
        decreases left - rows
      {
        var ok := NextLine(rows, left);
        if !ok { break; }
        line := p;
        loutp := outp;
        rows := rows + 1;
      }
      if line == n { RowsAll(mem, start, bpl, rows, left, outbuf.Length); }
    }

    /** The whole image, block after block. */
    method EncodeImage(rows: nat, miny: int) returns (ok: bool, written: seq<Block>)
      requires Shape() && line == 0 && n == rows * bpl
      modifies this, outbuf, dumpbuf, chains, chains.next, chains.prev, chains.s
      ensures outbuf.Length >= 2 * bpl ==> ok
      ensures ok ==> Decoded(written) == Some(mem[..n]) && RowsFit(written, miny, bpl)
      ensures ok ==> LastRow(written, miny) == (if bpl == 0 then miny else miny + rows)
      ensures forall b <- written :: |b.codes| <= outbuf.Length
      ensures n == 0 ==> written == []
      ensures bpl > 0 && outbuf.Length >= 2 * bpl ==> written == Blocks(mem, 0, miny, rows, bpl, outbuf.Length)
    {
      hide Decode, RowsFit, Decoded, LastRow, RowsCodes, FitRows, Blocks;
      written := [];
      var maxy := miny;
      NoBlocks(mem, miny, bpl);
      while line != n
        invariant line <= n
        invariant Delivered(written, mem, line, miny, maxy, bpl)
        invariant maxy - miny <= rows && (bpl == 0 ==> maxy == miny)
        invariant forall b <- written :: |b.codes| <= outbuf.Length
        invariant n == 0 ==> written == []
        invariant bpl > 0 ==>
                    && line + (rows - (maxy - miny)) * bpl == n
                    && Blocks(mem, 0, miny, rows, bpl, outbuf.Length)
                    == written + Blocks(mem, line, maxy, rows - (maxy - miny), bpl, outbuf.Length)
        decreases n - line
      {
        ghost var from, left := line, rows - (maxy - miny);
        RowsLeft(rows, maxy - miny, bpl);
        var done, loutp := EncodeBlock(left);
        if loutp == 0 { return false, written; }
        MoreBlocks(written, mem, from, miny, maxy, bpl, outbuf[..loutp], done);
        BlocksMore(mem, from, maxy, left, bpl, outbuf.Length, written, done);
        maxy := maxy + done;
        written := written + [Block(maxy, outbuf[..loutp])];
      }
      if bpl > 0 {
        SameRows(rows, maxy - miny, bpl);
        BlocksNone(mem, n, maxy, bpl, outbuf.Length);
      }
      ok := true;
    }
  }

  lemma BlocksNone(mem: seq<byte>, n: nat, y: int, bpl: nat, room: nat)
    requires n <= |mem|
    ensures Blocks(mem, n, y, 0, bpl, room) == []
  {
  }

  lemma BlocksMore(mem: seq<byte>, from: nat, y: int, left: nat, bpl: nat, room: nat, written: seq<Block>, k: nat)
    requires 0 < left && from + left * bpl <= |mem| && 0 < k == FitRows(mem, from, bpl, 0, left, room)
    ensures k <= left && from + k * bpl + (left - k) * bpl == from + left * bpl
    ensures written + Blocks(mem, from, y, left, bpl, room)
         == written + [Block(y + k, RowsCodes(mem, from, bpl, k))] + Blocks(mem, from + k * bpl, y + k, left - k, bpl, room)
  {
    hide FitRows, RowsCodes;
    MoreFit(k, left, bpl);
  }

  lemma RowsNone(mem: seq<byte>, base: nat, bpl: nat)
    requires base <= |mem|
    ensures RowsCodes(mem, base, bpl, 0) == []
  {
  }

  lemma RowsMore(mem: seq<byte>, base: nat, bpl: nat, rows: nat, left: nat, room: nat)
    requires rows < left && base + left * bpl <= |mem|
    ensures base + rows * bpl + bpl <= |mem| && base + (rows + 1) * bpl <= |mem|
    ensures RowsCodes(mem, base, bpl, rows + 1)
         == RowsCodes(mem, base, bpl, rows) + LineCodes(mem, base, base + rows * bpl, base + rows * bpl + bpl, [])
    ensures FitRows(mem, base, bpl, rows, left, room)
         == if |RowsCodes(mem, base, bpl, rows + 1)| <= room then FitRows(mem, base, bpl, rows + 1, left, room) else rows
  {
    MoreFit(rows + 1, left, bpl);
    RowStarts(rows + 1, bpl);
    hide LineCodes;
  }

  lemma RowsAll(mem: seq<byte>, base: nat, bpl: nat, rows: nat, left: nat, room: nat)
    requires rows <= left && base + left * bpl <= |mem| && bpl > 0 && rows * bpl == left * bpl
    ensures rows == left && FitRows(mem, base, bpl, rows, left, room) == rows
  {
    SameRows(left, rows, bpl);
  }

  lemma LineDone(mem: seq<byte>, base: nat, p: nat, dump: seq<byte>)
    requires base <= p <= |mem| && |dump| <= 128
    ensures LineCodes(mem, base, p, p, dump) == Dumped(dump) && |Dumped(dump)| == if dump == [] then 0 else |dump| + 1
  {
  }

  lemma AgreeCommon(mem: seq<byte>, y: nat, p: nat, es: nat, k: nat)
    requires y < p <= es <= |mem| && p + k <= es
    ensures Agree(mem, y, p, k) <==> k <= Common(mem, y, p, es)
  {
    CommonIs(mem, y, p, es, k);
  }

  /** The repeat that the chains have given is the best of the window. */
  lemma MatchIsBest(mem: seq<byte>, lo: nat, p: nat, es: nat, runlen: nat, q: nat)
    requires lo <= p < es <= |mem| && p + runlen <= es && NoneLonger(mem, lo, p, es, runlen)
    requires runlen > 0 ==> lo <= q < p && Agree(mem, q, p, runlen)
    requires runlen >= NMATCH ==> NoneNewer(mem, q, p, runlen)
    ensures runlen >= 3 ==> Best(mem, lo, p, p, es) == (runlen, q)
    ensures runlen < 3 ==> Best(mem, lo, p, p, es).0 < 3
  {
    hide Best, Common, Agree;
    BestIs(mem, lo, p, p, es);
    forall x: nat | lo <= x < p
      ensures Common(mem, x, p, es) <= if runlen < 3 then 2 else runlen
      ensures runlen >= 3 && q < x ==> Common(mem, x, p, es) < runlen
    {
      AgreeCommon(mem, x, p, es, Common(mem, x, p, es));
      AgreeCommon(mem, x, p, es, runlen);
    }
    if runlen >= 3 {
      AgreeCommon(mem, q, p, es, runlen);
      BestUnique(mem, lo, p, es, runlen, q);
    }
  }

  /** What the reference does at p. */
  lemma StepIs(mem: seq<byte>, base: nat, p: nat, eline: nat, es: nat, runlen: nat, q: nat, dump: seq<byte>, out: seq<byte>)
    requires base <= p < eline <= |mem| && |dump| <= 128 && es == (if eline - p < 34 then eline else p + 34)
    requires p + runlen <= es && NoneLonger(mem, Window(base, p), p, es, runlen)
    requires runlen > 0 ==> Window(base, p) <= q < p && Agree(mem, q, p, runlen)
    requires runlen >= NMATCH ==> NoneNewer(mem, q, p, runlen)
    ensures out + LineCodes(mem, base, p, eline, dump)
         == if runlen >= 3 then out + Dumped(dump) + CopyCode(p - q - 1, runlen) + LineCodes(mem, base, p + runlen, eline, [])
            else if |dump| == 128 then out + Dumped(dump) + LineCodes(mem, base, p + 1, eline, [mem[p]])
            else out + LineCodes(mem, base, p + 1, eline, dump + [mem[p]])
    ensures var wait := if dump == [] then 0 else |dump| + 1;
            && (runlen >= 3 ==> |out + LineCodes(mem, base, p, eline, dump)| >= |out| + wait + 2)
            && (runlen < 3 && |dump| == 128 ==> |out + LineCodes(mem, base, p, eline, dump)| >= |out| + wait)
  {
    hide Best, Agree, NoneLonger, NoneNewer, Dumped;
    MatchIsBest(mem, Window(base, p), p, es, runlen, q);
    LineDone(mem, base, p, dump);
  }

  function LastRow(blocks: seq<Block>, miny: int): int {
    RowBefore(blocks, |blocks|, miny)
  }

  /** The blocks so far hold the image up to `line`, row `maxy`. */
  ghost predicate Delivered(blocks: seq<Block>, mem: seq<byte>, line: nat, miny: int, maxy: int, bpl: nat) {
    && line <= |mem| && miny <= maxy && line == (maxy - miny) * bpl
    && Decoded(blocks) == Some(mem[..line])
    && RowsFit(blocks, miny, bpl)
    && LastRow(blocks, miny) == maxy
  }

  lemma NoBlocks(mem: seq<byte>, miny: int, bpl: nat)
    ensures Delivered([], mem, 0, miny, miny, bpl)
  {
  }

  lemma MoreBlocks(blocks: seq<Block>, mem: seq<byte>, line: nat, miny: int, maxy: int, bpl: nat,
                   codes: seq<byte>, rows: nat)
    requires Delivered(blocks, mem, line, miny, maxy, bpl)
    requires 0 < rows && line + rows * bpl <= |mem|
    requires Decode(codes, []) == Some(mem[line..line + rows * bpl])
    ensures Delivered(blocks + [Block(maxy + rows, codes)], mem, line + rows * bpl, miny, maxy + rows, bpl)
  {
    hide Decode, Decoded, HoldsRows, RowBefore;
    AddRows(maxy - miny, rows, bpl);
    MoreDecoded(blocks, mem, line, rows * bpl, Block(maxy + rows, codes));
    MoreHeld(blocks, miny, maxy, bpl, rows, rows * bpl, Block(maxy + rows, codes));
  }

  lemma MoreDecoded(blocks: seq<Block>, mem: seq<byte>, line: nat, size: nat, b: Block)
    requires line + size <= |mem| && Decoded(blocks) == Some(mem[..line])
    requires Decode(b.codes, []) == Some(mem[line..line + size])
    ensures Decoded(blocks + [b]) == Some(mem[..line + size])
  {
    hide Decode;
    assert (blocks + [b])[..|blocks|] == blocks;
    assert mem[..line] + mem[line..line + size] == mem[..line + size];
  }

  lemma MoreHeld(blocks: seq<Block>, miny: int, maxy: int, bpl: nat, rows: nat, size: nat, b: Block)
    requires RowsFit(blocks, miny, bpl) && LastRow(blocks, miny) == maxy && rows > 0
    requires b.maxy == maxy + rows && Decode(b.codes, []).Some? && |Decode(b.codes, []).value| == size == rows * bpl
    ensures RowsFit(blocks + [b], miny, bpl) && LastRow(blocks + [b], miny) == b.maxy
  {
    hide Decode, HoldsRows;
    var more := blocks + [b];
    LastHeld(b, maxy, bpl, rows);
    forall i | 0 <= i < |more|
      ensures HoldsRows(more[i], RowBefore(more, i, miny), bpl)
    {
      assert RowBefore(more, i, miny) == RowBefore(blocks, i, miny);
      if i < |blocks| {
        assert HoldsRows(blocks[i], RowBefore(blocks, i, miny), bpl);
      }
    }
  }

  lemma LastHeld(b: Block, maxy: int, bpl: nat, rows: nat)
    requires rows > 0 && b.maxy == maxy + rows && Decode(b.codes, []).Some? && |Decode(b.codes, []).value| == rows * bpl
    ensures HoldsRows(b, maxy, bpl)
  {
    hide Decode;
    assert b.maxy - maxy == rows;
  }

  lemma AddRows(a: nat, b: nat, bpl: nat)
    ensures (a + b) * bpl == a * bpl + b * bpl
  {
  }

  lemma MoreRows(left: nat, rows: nat, bpl: nat)
    requires rows <= left && rows * bpl != left * bpl
    ensures rows < left && (rows + 1) * bpl == rows * bpl + bpl <= left * bpl
  {
  }

  lemma RowsLeft(rows: nat, used: nat, bpl: nat)
    requires used <= rows && used * bpl != rows * bpl
    ensures used < rows && 0 < bpl && used * bpl + (rows - used) * bpl == rows * bpl
  {
  }

  lemma NoZeroDivisor(d: int, k: nat)
    requires d * k == 0 && k > 0
    ensures d == 0
  {
  }

  lemma SameRows(a: nat, b: nat, bpl: nat)
    requires a * bpl == b * bpl && bpl > 0
    ensures a == b
  {
    assert (a - b) * bpl == 0;
    NoZeroDivisor(a - b, bpl);
  }

  /** `writeimage` for an image of `rows` lines of `bpl` bytes.  The encoder may
      look up to two bytes past a short image (line 83); whatever `after`
      holds there, the image comes back from its blocks, none overflows, and
      the failure at Bfull cannot happen. */
  method WriteImage(data: seq<byte>, after: seq<byte>, rows: nat, bpl: nat, miny: int)
      returns (ok: bool, written: seq<Block>)
    requires |after| >= 2 && |data| == rows * bpl
    ensures ok
    ensures Decoded(written) == Some(data)
    ensures RowsFit(written, miny, bpl)
    ensures LastRow(written, miny) == (if bpl == 0 then miny else miny + rows)
    ensures forall b <- written :: |b.codes| <= CompBlockSize(bpl)
    ensures written == if bpl == 0 then [] else Blocks(data, 0, miny, rows, bpl, CompBlockSize(bpl))
  {
    hide Decode, RowsFit, Decoded, LastRow, Blocks;
    BlocksLocal(data + after, |data|, 0, miny, rows, bpl, CompBlockSize(bpl));
    var e := new Encoder(data, after, bpl, CompBlockSize(bpl));
    ok, written := e.EncodeImage(rows, miny);
    assert (data + after)[..|data|] == data;
  }
}
