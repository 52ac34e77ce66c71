/**
 The compressor of image files as it would be written without hash chains and
 buffers: at each byte of a line the window is searched for the longest repeat,
 the newest of the longest; fewer than three bytes are not worth a code.  The
 encoder in ImageWriter is measured against it, code by code.
 */
module ImageReference {
  import opened Basics
  import opened CompressedImage

  /** How far the text at y and at p is the same, up to `es`. */
  function Common(mem: seq<byte>, y: nat, p: nat, es: nat): (k: nat)
    requires y < p <= es <= |mem|
    ensures p + k <= es
    decreases es - p
  {
    if p < es && mem[y] == mem[p] then 1 + Common(mem, y + 1, p + 1, es) else 0
  }

  /** The length and the place of the longest repeat of the text at p that begins
      in [lo, y), and of those the last. */
  function Best(mem: seq<byte>, lo: nat, y: nat, p: nat, es: nat): (r: (nat, nat))
    requires lo <= y <= p <= es <= |mem|
    ensures p + r.0 <= es && (r.0 > 0 ==> lo <= r.1 < y)
    decreases y
  {
    if y == lo then (0, 0)
    else
      var older, k := Best(mem, lo, y - 1, p, es), Common(mem, y - 1, p, es);
      if k > 0 && k >= older.0 then (k, y - 1) else older
  }

  /** The window: the last 1024 bytes of the block. */
  function Window(base: nat, p: nat): (lo: nat)
    requires base <= p
    ensures base <= lo <= p
  {
    if p - base <= 1024 then base else p - 1024
  }

  /** The literals that wait, as a code. */
  function Dumped(dump: seq<byte>): seq<byte>
    requires |dump| <= 128
  {
    if dump == [] then [] else DumpCode(dump)
  }

  /** The codes of the rest of a line, from p on, when `dump` waits. */
  function LineCodes(mem: seq<byte>, base: nat, p: nat, eline: nat, dump: seq<byte>): seq<byte>
    requires base <= p <= eline <= |mem| && |dump| <= 128
    decreases eline - p
  {
    if p == eline then Dumped(dump)
    else
      var es := if p + 34 <= eline then p + 34 else eline;
      var (len, q) := Best(mem, Window(base, p), p, p, es);
      if len >= 3 then Dumped(dump) + CopyCode(p - q - 1, len) + LineCodes(mem, base, p + len, eline, [])
      else if |dump| == 128 then Dumped(dump) + LineCodes(mem, base, p + 1, eline, [mem[p]])
      else LineCodes(mem, base, p + 1, eline, dump + [mem[p]])
  }

  /** The codes of some lines of a block that begins at `base`. */
  function RowsCodes(mem: seq<byte>, base: nat, bpl: nat, rows: nat): seq<byte>
    requires base + rows * bpl <= |mem|
  {
    if rows == 0 then []
    else
      RowStarts(rows, bpl);
      RowsCodes(mem, base, bpl, rows - 1) + LineCodes(mem, base, base + (rows - 1) * bpl, base + rows * bpl, [])
  }

  lemma RowStarts(rows: nat, bpl: nat)
    requires rows > 0
    ensures 0 <= (rows - 1) * bpl && (rows - 1) * bpl + bpl == rows * bpl
  {
  }

  /** As many rows as fit. */
  function FitRows(mem: seq<byte>, base: nat, bpl: nat, rows: nat, left: nat, room: nat): (k: nat)
    requires rows <= left && base + left * bpl <= |mem|
    ensures rows <= k <= left
    decreases left - rows
  {
    if rows == left then rows
    else
      MoreFit(rows + 1, left, bpl);
      if |RowsCodes(mem, base, bpl, rows + 1)| <= room then FitRows(mem, base, bpl, rows + 1, left, room) else rows
  }

  lemma MoreFit(rows: nat, left: nat, bpl: nat)
    requires rows <= left
    ensures rows * bpl <= left * bpl && left * bpl == rows * bpl + (left - rows) * bpl
  {
  }

  /** One block as it goes to the file: the row below its last one, its codes. */
  datatype Block = Block(maxy: int, codes: seq<byte>)

  /** The blocks for the `left` rows from byte `from` on, which is row `y`. */
  function Blocks(mem: seq<byte>, from: nat, y: int, left: nat, bpl: nat, room: nat): seq<Block>
    requires from + left * bpl <= |mem|
    decreases left
  {
    if left == 0 then []
    else
      var k := FitRows(mem, from, bpl, 0, left, room);
      MoreFit(k, left, bpl);
      if k == 0 then [] else [Block(y + k, RowsCodes(mem, from, bpl, k))] + Blocks(mem, from + k * bpl, y + k, left - k, bpl, room)
  }

  // ------------------------------------------------------------------
  // What the search finds

  lemma {:induction false} CommonIs(mem: seq<byte>, y: nat, p: nat, es: nat, k: nat)
    requires y < p <= es <= |mem| && p + k <= es
    ensures k <= Common(mem, y, p, es) <==> mem[y..y + k] == mem[p..p + k]
    decreases k
  {
    var a, b := mem[y..y + k], mem[p..p + k];
    if k > 0 {
      assert a[0] == mem[y] && b[0] == mem[p];
      if mem[y] == mem[p] {
        CommonIs(mem, y + 1, p + 1, es, k - 1);
        assert a == [mem[y]] + mem[y + 1..y + 1 + (k - 1)] && b == [mem[p]] + mem[p + 1..p + 1 + (k - 1)];
        if a == b { assert a[1..] == b[1..]; }
      }
    }
  }

  /** No repeat is longer, and no later one as long. */
  lemma {:induction false} BestIs(mem: seq<byte>, lo: nat, y: nat, p: nat, es: nat)
    requires lo <= y <= p <= es <= |mem|
    ensures var (k, q) := Best(mem, lo, y, p, es);
            && (k > 0 ==> k == Common(mem, q, p, es))
            && (forall x: nat :: lo <= x < y ==> Common(mem, x, p, es) <= k)
            && (k > 0 ==> forall x: nat :: q < x < y ==> Common(mem, x, p, es) < k)
    decreases y
  {
    if y > lo { BestIs(mem, lo, y - 1, p, es); }
  }

  lemma BestUnique(mem: seq<byte>, lo: nat, p: nat, es: nat, k: nat, q: nat)
    requires lo <= q < p <= es <= |mem| && k > 0 && p + k <= es && k == Common(mem, q, p, es)
    requires forall x: nat :: lo <= x < p ==> Common(mem, x, p, es) <= k
    requires forall x: nat :: q < x < p ==> Common(mem, x, p, es) < k
    ensures Best(mem, lo, p, p, es) == (k, q)
  {
    BestIs(mem, lo, p, p, es);
  }

  // ------------------------------------------------------------------
  // Nothing behind the pixels matters

  lemma {:induction false} CommonLocal(mem: seq<byte>, n: nat, y: nat, p: nat, es: nat)
    requires y < p <= es <= n <= |mem|
    ensures Common(mem[..n], y, p, es) == Common(mem, y, p, es)
    decreases es - p
  {
    if p < es && mem[y] == mem[p] { CommonLocal(mem, n, y + 1, p + 1, es); }
  }

  lemma {:induction false} BestLocal(mem: seq<byte>, n: nat, lo: nat, y: nat, p: nat, es: nat)
    requires lo <= y <= p <= es <= n <= |mem|
    ensures Best(mem[..n], lo, y, p, es) == Best(mem, lo, y, p, es)
    decreases y
  {
    if y > lo {
      BestLocal(mem, n, lo, y - 1, p, es);
      CommonLocal(mem, n, y - 1, p, es);
    }
  }

  lemma {:induction false} LineLocal(mem: seq<byte>, n: nat, base: nat, p: nat, eline: nat, dump: seq<byte>)
    requires base <= p <= eline <= n <= |mem| && |dump| <= 128
    ensures LineCodes(mem[..n], base, p, eline, dump) == LineCodes(mem, base, p, eline, dump)
    decreases eline - p
  {
    hide Best;
    if p < eline {
      var es := if p + 34 <= eline then p + 34 else eline;
      BestLocal(mem, n, Window(base, p), p, p, es);
      var (len, q) := Best(mem, Window(base, p), p, p, es);
      if len >= 3 { LineLocal(mem, n, base, p + len, eline, []); }
      else if |dump| == 128 { LineLocal(mem, n, base, p + 1, eline, [mem[p]]); }
      else { LineLocal(mem, n, base, p + 1, eline, dump + [mem[p]]); }
    }
  }

  lemma {:induction false} RowsLocal(mem: seq<byte>, n: nat, base: nat, bpl: nat, rows: nat)
    requires base + rows * bpl <= n <= |mem|
    ensures RowsCodes(mem[..n], base, bpl, rows) == RowsCodes(mem, base, bpl, rows)
  {
    hide LineCodes;
    if rows > 0 {
      RowStarts(rows, bpl);
      RowsLocal(mem, n, base, bpl, rows - 1);
      LineLocal(mem, n, base, base + (rows - 1) * bpl, base + rows * bpl, []);
    }
  }

  lemma {:induction false} FitLocal(mem: seq<byte>, n: nat, base: nat, bpl: nat, rows: nat, left: nat, room: nat)
    requires rows <= left && base + left * bpl <= n <= |mem|
    ensures FitRows(mem[..n], base, bpl, rows, left, room) == FitRows(mem, base, bpl, rows, left, room)
    decreases left - rows
  {
    hide RowsCodes;
    if rows < left {
      MoreFit(rows + 1, left, bpl);
      RowsLocal(mem, n, base, bpl, rows + 1);
      FitLocal(mem, n, base, bpl, rows + 1, left, room);
    }
  }

  lemma {:induction false} BlocksLocal(mem: seq<byte>, n: nat, from: nat, y: int, left: nat, bpl: nat, room: nat)
    requires from + left * bpl <= n <= |mem|
    ensures Blocks(mem[..n], from, y, left, bpl, room) == Blocks(mem, from, y, left, bpl, room)
    decreases left
  {
    hide RowsCodes, FitRows;
    if left > 0 {
      var k := FitRows(mem, from, bpl, 0, left, room);
      FitLocal(mem, n, from, bpl, 0, left, room);
      MoreFit(k, left, bpl);
      if k > 0 {
        RowsLocal(mem, n, from, bpl, k);
        BlocksLocal(mem, n, from + k * bpl, y + k, left - k, bpl, room);
      }
    }
  }
}
