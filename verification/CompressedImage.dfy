/**
 The compressed image format of image(6): one block is a sequence of byte
 codes, decoded from an empty window.  This module is the reference meaning
 that the encoder in ImageWriter is measured against, together with the
 in-place complement `_twiddlecompressed`.
 */
module CompressedImage {
  import opened Basics

  // The numbers on which writer and reader agree.
  const NMATCH := 3          // a repeat code says how much longer than this its repeat is
  const NRUN := NMATCH + 31  // with five bits
  const NMEM := 1024         // and with ten how far back it lies
  const NDUMP := 128         // as many literals fit the seven bits of a dump code
  const NCBLOCK := 6000      // room for the codes of a block, unless a line is long

  /** The two fields of a repeat code: how many bytes, and from how far back. */
  function RepeatLength(c0: int): int { c0 / 4 + NMATCH }

  function RepeatOffset(c0: int, c1: int): int { (c0 % 4) * 256 + c1 + 1 }

  /** `out` extended by `len` bytes, each the one that lies `offs` behind the
      end at that moment, so a copy may overlap what it produces. */
  function CopyBack(out: seq<byte>, offs: nat, len: nat): (r: seq<byte>)
    requires 0 < offs <= |out|
    ensures |r| == |out| + len && r[..|out|] == out
    ensures forall k :: |out| <= k < |r| ==> r[k] == r[k - offs]
    decreases len
  {
    if len == 0 then out else CopyBack(out + [out[|out| - offs]], offs, len - 1)
  }

  /** Decode byte codes onto `out`; None for a truncated code or a reference
      before the start of the block. */
  function Decode(code: seq<byte>, out: seq<byte>): (r: Option<seq<byte>>)
    ensures r.Some? ==> out <= r.value
    decreases |code|
  {
    if code == [] then Some(out)
    else if code[0] >= 128 then
      var k := code[0] - 128 + 1;
      if |code| < 1 + k then None else Decode(code[1 + k..], out + code[1..1 + k])
    else if |code| < 2 then None
    else
      var len, offs := RepeatLength(code[0]), RepeatOffset(code[0], code[1]);
      if offs > |out| then None else Decode(code[2..], CopyBack(out, offs, len))
  }

  /** Decoding is incremental: a well-formed prefix can be decoded first. */
  lemma {:induction false} DecodeAppend(a: seq<byte>, b: seq<byte>, out: seq<byte>)
    requires Decode(a, out).Some?
    ensures Decode(a + b, out) == Decode(b, Decode(a, out).value)
    decreases |a|
  {
    if a == [] {
      assert a + b == b;
    } else if a[0] >= 128 {
      var k := a[0] - 128 + 1;
      assert (a + b)[1..1 + k] == a[1..1 + k];
      assert (a + b)[1 + k..] == a[1 + k..] + b;
      DecodeAppend(a[1 + k..], b, out + a[1..1 + k]);
    } else {
      assert (a + b)[2..] == a[2..] + b;
      DecodeAppend(a[2..], b, CopyBack(out, RepeatOffset(a[0], a[1]), RepeatLength(a[0])));
    }
  }

  /** A copy that continues a text it repeats yields the text. */
  lemma {:induction false} CopyBackIs(text: seq<byte>, from: nat, to: nat, len: nat)
    requires from < to && to + len <= |text|
    requires text[from..from + len] == text[to..to + len]
    ensures CopyBack(text[..to], to - from, len) == text[..to + len]
  {
    var r := CopyBack(text[..to], to - from, len);
    var n := 0;
    while n < len
      invariant n <= len
      invariant forall k :: 0 <= k < to + n ==> r[k] == text[k]
    {
      assert r[to + n] == r[to + n - (to - from)] == text[from + n];
      assert text[from..from + len][n] == text[to..to + len][n];
      n := n + 1;
    }
  }

  /** The codes for literals and for a repeat. */
  function DumpCode(lits: seq<byte>): (r: seq<byte>)
    requires 0 < |lits| <= NDUMP
    ensures |r| == 1 + |lits|
  {
    [|lits| - 1 + 128] + lits
  }

  function CopyCode(offs: nat, len: nat): (r: seq<byte>)
    requires offs < NMEM && NMATCH <= len <= NRUN
    ensures |r| == 2
  {
    [(len - NMATCH) * 4 + offs / 256, offs % 256]
  }

  lemma DecodeDump(out: seq<byte>, lits: seq<byte>)
    requires 0 < |lits| <= NDUMP
    ensures Decode(DumpCode(lits), out) == Some(out + lits)
  {
    var code := DumpCode(lits);
    assert code[1..1 + |lits|] == lits && code[1 + |lits|..] == [];
  }

  lemma CopyFields(offs: nat, len: nat)
    requires offs < NMEM && NMATCH <= len <= NRUN
    ensures var code := CopyCode(offs, len);
            code[0] < 128 && RepeatLength(code[0]) == len && RepeatOffset(code[0], code[1]) == offs + 1
  {
  }

  lemma DecodeCopy(out: seq<byte>, offs: nat, len: nat)
    requires offs < NMEM && offs < |out| && NMATCH <= len <= NRUN
    ensures Decode(CopyCode(offs, len), out) == Some(CopyBack(out, offs + 1, len))
  {
    hide CopyBack;
    var code := CopyCode(offs, len);
    CopyFields(offs, len);
    assert code[2..] == [] && code != [] && |code| == 2;
  }

  // ------------------------------------------------------------------
  // _twiddlecompressed

  function Invert(b: byte): byte { 255 - b }

  function Complement(s: seq<byte>): (r: seq<byte>)
    ensures |r| == |s| && forall i :: 0 <= i < |s| ==> r[i] == Invert(s[i])
  {
    seq(|s|, i requires 0 <= i < |s| => Invert(s[i]))
  }

  /** The block splits exactly into codes. */
  predicate Parses(code: seq<byte>)
    decreases |code|
  {
    code == [] ||
    if code[0] >= 128 then |code| >= code[0] - 128 + 2 && Parses(code[code[0] - 128 + 2..])
    else |code| >= 2 && Parses(code[2..])
  }

  /** Code bytes and repeats stay, literal bytes are complemented. */
  function Twiddled(code: seq<byte>): (r: seq<byte>)
    requires Parses(code)
    ensures |r| == |code|
    decreases |code|
  {
    if code == [] then []
    else if code[0] >= 128 then
      var k := code[0] - 128 + 1;
      [code[0]] + Complement(code[1..1 + k]) + Twiddled(code[1 + k..])
    else code[..2] + Twiddled(code[2..])
  }

  lemma {:induction false} DecodeParses(code: seq<byte>, out: seq<byte>)
    requires Decode(code, out).Some?
    ensures Parses(code)
    decreases |code|
  {
    if code == [] {
    } else if code[0] >= 128 {
      var k := code[0] - 128 + 1;
      DecodeParses(code[1 + k..], out + code[1..1 + k]);
    } else {
      DecodeParses(code[2..], CopyBack(out, RepeatOffset(code[0], code[1]), RepeatLength(code[0])));
    }
  }

  lemma {:induction false} TwiddledTwice(code: seq<byte>)
    requires Parses(code)
    ensures Parses(Twiddled(code)) && Twiddled(Twiddled(code)) == code
    decreases |code|
  {
    hide Complement;
    if code == [] {
    } else if code[0] >= 128 {
      var k := code[0] - 128 + 1;
      var lits, rest := code[1..1 + k], code[1 + k..];
      TwiddledTwice(rest);
      ComplementTwice(lits);
      TwiddledOfDump(code[0], lits, rest);
      TwiddledOfDump(code[0], Complement(lits), Twiddled(rest));
      assert code == [code[0]] + lits + rest;
    } else {
      TwiddledTwice(code[2..]);
      assert Twiddled(code)[2..] == Twiddled(code[2..]);
      assert code == code[..2] + code[2..];
    }
  }

  lemma TwiddledOfDump(c: byte, lits: seq<byte>, rest: seq<byte>)
    requires c >= 128 && |lits| == c - 128 + 1 && Parses(rest)
    ensures Parses([c] + lits + rest)
    ensures Twiddled([c] + lits + rest) == [c] + Complement(lits) + Twiddled(rest)
  {
    var code := [c] + lits + rest;
    assert code[1..1 + |lits|] == lits && code[1 + |lits|..] == rest;
  }

  lemma ComplementTwice(s: seq<byte>)
    ensures Complement(Complement(s)) == s
  {
  }

  lemma {:induction false} CopyBackComplement(out: seq<byte>, offs: nat, len: nat)
    requires 0 < offs <= |out|
    ensures CopyBack(Complement(out), offs, len) == Complement(CopyBack(out, offs, len))
    decreases len
  {
    if len != 0 {
      hide Complement, Invert;
      var c := out[|out| - offs];
      ComplementMore(out, c);
      CopyBackComplement(out + [c], offs, len - 1);
    }
  }

  lemma ComplementMore(out: seq<byte>, c: byte)
    ensures Complement(out + [c]) == Complement(out) + [Invert(c)]
  {
    hide Complement, Invert;
  }

  /** Only literal bytes change, and yet the whole picture is complemented:
      a repeat copies bytes that are complemented already. */
  lemma {:induction false} TwiddledDecodesToComplement(code: seq<byte>, out: seq<byte>)
    requires Parses(code)
    ensures Decode(Twiddled(code), Complement(out)) ==
            match Decode(code, out) case None => None case Some(v) => Some(Complement(v))
    decreases |code|
  {
    if code == [] {
    } else if code[0] >= 128 {
      var k := code[0] - 128 + 1;
      var t := Twiddled(code);
      assert t[1..1 + k] == Complement(code[1..1 + k]) && t[1 + k..] == Twiddled(code[1 + k..]);
      assert Complement(out + code[1..1 + k]) == Complement(out) + Complement(code[1..1 + k]);
      TwiddledDecodesToComplement(code[1 + k..], out + code[1..1 + k]);
    } else {
      var t := Twiddled(code);
      assert t[0] == code[0] && t[1] == code[1] && t[2..] == Twiddled(code[2..]);
      var len, offs := RepeatLength(code[0]), RepeatOffset(code[0], code[1]);
      if offs <= |out| {
        CopyBackComplement(out, offs, len);
        TwiddledDecodesToComplement(code[2..], CopyBack(out, offs, len));
      }
    }
  }

  /** `i` is a code boundary of `was`, and `t` is its complemented form from there. */
  ghost predicate TwiddlesFrom(was: seq<byte>, t: seq<byte>, i: nat) {
    i <= |was| == |t| && Parses(was[i..]) && t[i..] == Twiddled(was[i..])
  }

  /** How the complemented block `t` reads from a code boundary `i` on. */
  lemma TwiddledDump(was: seq<byte>, i: nat, t: seq<byte>, k: nat)
    requires i < |was| && TwiddlesFrom(was, t, i)
    requires was[i] >= 128 && k == was[i] - 128 + 1
    ensures TwiddlesFrom(was, t, i + 1 + k)
    ensures t[i] == was[i]
    ensures forall n :: i < n < i + 1 + k ==> t[n] == Invert(was[n])
  {
    var rest, u := was[i..], t[i..];
    assert rest[1 + k..] == was[i + 1 + k..] && u[1 + k..] == t[i + 1 + k..];
    forall n | i < n < i + 1 + k
      ensures t[n] == Invert(was[n])
    {
      assert t[n] == u[n - i] && was[n] == rest[n - i] == rest[1..1 + k][n - i - 1];
    }
  }

  lemma TwiddledRepeat(was: seq<byte>, i: nat, t: seq<byte>)
    requires i < |was| && TwiddlesFrom(was, t, i)
    requires was[i] < 128
    ensures TwiddlesFrom(was, t, i + 2)
    ensures t[i] == was[i] && t[i + 1] == was[i + 1]
  {
    var rest, u := was[i..], t[i..];
    assert rest[2..] == was[i + 2..] && u[2..] == t[i + 2..];
    assert u[0] == rest[0] && u[1] == rest[1];
  }

  /** `_twiddlecompressed`: the pass over the buffer, in place. */
  method TwiddleCompressed(buf: array<byte>)
    requires Parses(buf[..])
    modifies buf
    ensures buf[..] == Twiddled(old(buf[..]))
  {
    hide Twiddled, Parses;
    var i := 0;
    ghost var was := buf[..];
    ghost var t := Twiddled(was);
    assert was[0..] == was && t[0..] == t;
    while i < buf.Length
      invariant 0 <= i <= |was| == buf.Length
      invariant TwiddlesFrom(was, t, i)
      invariant forall n :: 0 <= n < i ==> buf[n] == t[n]
      invariant forall n :: i <= n < buf.Length ==> buf[n] == was[n]
      decreases buf.Length - i
    {
      var c := buf[i];
      i := i + 1;
      if c >= 128 {
        var k := c - 128 + 1;
        TwiddledDump(was, i - 1, t, k);
        InvertLiterals(buf, i, k);
        i := i + k;
      } else {
        TwiddledRepeat(was, i - 1, t);
        i := i + 1;
      }
    }
  }

  /** The inner loop: the `k` literal bytes from `i` on are complemented. */
  method InvertLiterals(buf: array<byte>, i: nat, k: nat)
    requires i + k <= buf.Length
    modifies buf
    ensures forall n :: 0 <= n < buf.Length ==>
                          buf[n] == if i <= n < i + k then Invert(old(buf[n])) else old(buf[n])
  {
    var j := 0;
    while j < k
      invariant 0 <= j <= k
      invariant forall n :: 0 <= n < buf.Length ==>
                              buf[n] == if i <= n < i + j then Invert(old(buf[n])) else old(buf[n])
    {
      buf[i + j] := Invert(buf[i + j]);
      j := j + 1;
    }
  }
}
