/**
 Cutting a line into words in place (lib9/tokenize.c), and that it undoes
 quoting.
 */
module Tokens {
  import opened Basics
  import opened ByteStrings
  import opened Quoting

  predicate IsSep(b: byte) {
    b == 32 || b == 9 || b == 13 || b == 10
  }

  /** A word from place i on, and the place behind it. */
  datatype Word = Word(s: Str, next: nat)

  function Cons(b: byte, w: Word): Word {
    Word([b] + w.s, w.next)
  }

  /** The word that starts at i, or goes on there: quotes are taken away, and a
      doubled quote between quotes is one. */
  function WordAt(b: Str, i: nat, quoting: bool): (w: Word)
    requires i <= |b|
    ensures i <= w.next <= |b| && (w.next < |b| ==> IsSep(b[w.next]))
    decreases |b| - i
  {
    if i == |b| || (!quoting && IsSep(b[i])) then
      Word([], i)
    else if b[i] != QUOTE then Cons(b[i], WordAt(b, i + 1, quoting))
    else if !quoting then WordAt(b, i + 1, true)
    else if i + 1 < |b| && b[i + 1] == QUOTE then Cons(QUOTE, WordAt(b, i + 2, true))
    else WordAt(b, i + 1, false)
  }

  /** The first place from i on that is not a separator. */
  function Skip(b: Str, i: nat): (j: nat)
    requires i <= |b|
    ensures i <= j <= |b| && (j < |b| ==> !IsSep(b[j]))
    decreases |b| - i
  {
    if i < |b| && IsSep(b[i]) then Skip(b, i + 1) else i
  }

  /** The words of a line, at most max of them. */
  function Words(b: Str, i: nat, max: nat): seq<Str>
    requires i <= |b|
    decreases max
  {
    if max == 0 then []
    else
      var j := Skip(b, i);
      if j == |b| then []
      else
        var w := WordAt(b, j, false);
        [w.s] + Words(b, w.next, max - 1)
  }

  // ------------------------------------------------------------------
  // In place

  /** The string x is at p, with its NUL. */
  ghost predicate CStr(a: Str, p: nat, x: Str) {
    At(a, p, x) && p + |x| < |a| && a[p + |x|] == 0
  }

  ghost predicate NulFree(b: Str) {
    forall i :: 0 <= i < |b| ==> b[i] != 0
  }

  /** From p on the buffer is as it was, with line b and its NUL. */
  ghost predicate Rest(a: Str, b: Str, p: nat) {
    |b| < |a| && a[|b|] == 0 && forall i :: p <= i < |b| ==> a[i] == b[i]
  }

  ghost predicate Before(a: Str, a': Str, p: nat) {
    |a'| == |a| && forall i :: 0 <= i < p && i < |a| ==> a'[i] == a[i]
  }

  function Joined(x: Str, w: Word): Word {
    Word(x + w.s, w.next)
  }

  lemma JoinedMore(x: Str, c: byte, w: Word)
    ensures Joined(x, Cons(c, w)) == Joined(x + [c], w)
  {
    assert x + ([c] + w.s) == x + [c] + w.s;
  }

  lemma WordStep(b: Str, t: nat, quoting: bool, x: Str)
    requires t < |b| && (quoting || !IsSep(b[t]))
    ensures Joined(x, WordAt(b, t, quoting)) ==
            if b[t] != QUOTE then Joined(x + [b[t]], WordAt(b, t + 1, quoting))
            else if !quoting then Joined(x, WordAt(b, t + 1, true))
            else if t + 1 < |b| && b[t + 1] == QUOTE then Joined(x + [QUOTE], WordAt(b, t + 2, true))
            else Joined(x, WordAt(b, t + 1, false))
  {
    JoinedMore(x, b[t], WordAt(b, t + 1, quoting));
    if t + 1 < |b| { JoinedMore(x, QUOTE, WordAt(b, t + 2, true)); }
    hide Joined;
  }

  lemma JoinedNone(w: Word)
    ensures Joined([], w) == w
  {
  }

  /** `qtoken`: the word at s0, in place and with a NUL; what is behind it is not
      touched, and nothing before it. */
  method QToken(a: array<byte>, s0: nat, ghost b: Str) returns (t: nat)
    requires s0 < |b| && Rest(a[..], b, s0) && NulFree(b) && !IsSep(b[s0])
    modifies a
    ensures var w := WordAt(b, s0, false);
            && CStr(a[..], s0, w.s) && (s0 + |w.s| < t || t == |b|)
            && s0 < t <= |b| && Skip(b, t) == Skip(b, w.next)
    ensures Rest(a[..], b, t) && Before(old(a[..]), a[..], s0)
  {
    hide WordAt, Joined, Skip;
    var s, quoting := s0, false;
    ghost var out: Str := [];
    t := s0;
    JoinedNone(WordAt(b, s0, false));
    while a[t] != 0 && (quoting || !IsSep(a[t]))
      invariant s0 <= s <= t <= |b| && s == s0 + |out| && At(a[..], s0, out)
      invariant Rest(a[..], b, s) && Before(old(a[..]), a[..], s0)
      invariant Joined(out, WordAt(b, t, quoting)) == WordAt(b, s0, false)
      invariant t == s0 ==> !quoting
      decreases |b| - t
    {
      WordStep(b, t, quoting, out);
      if a[t] != QUOTE {
        Write(a, s, a[t], b, s0, out);
        out := out + [b[t]];
        s, t := s + 1, t + 1;
      } else if !quoting {
        quoting := true;
        t := t + 1;
      } else if a[t + 1] != QUOTE {
        t := t + 1;
        quoting := false;
      } else {
        t := t + 1;
        Write(a, s, a[t], b, s0, out);
        out := out + [QUOTE];
        s, t := s + 1, t + 1;
      }
    }
    WordEnds(b, t, quoting, out);
    SkipSep(b, t);
    if a[s] != 0 {
      Write(a, s, 0, b, s0, out);
      if t == s { t := t + 1; }
    }
  }

  /** A word ends at the end of the line or at a separator. */
  lemma WordEnds(b: Str, t: nat, quoting: bool, x: Str)
    requires t <= |b| && (t == |b| || (!quoting && IsSep(b[t])))
    ensures Joined(x, WordAt(b, t, quoting)) == Word(x, t)
  {
    assert x + [] == x;
  }

  lemma SkipSep(b: Str, t: nat)
    requires t <= |b|
    ensures t < |b| && IsSep(b[t]) ==> Skip(b, t) == Skip(b, t + 1)
  {
  }

  /** The next byte of the word. */
  method Write(a: array<byte>, s: nat, c: byte, ghost b: Str, ghost s0: nat, ghost out: Str)
    requires s < |b| && Rest(a[..], b, s) && s == s0 + |out| && At(a[..], s0, out)
    modifies a
    ensures At(a[..], s0, out) && a.Length == |old(a[..])| && a[s] == c && At(a[..], s0, out + [c])
    ensures Rest(a[..], b, s + 1) && Before(old(a[..]), a[..], s)
  {
    a[s] := c;
    AtJoin(a[..], s0, out, [c]);
    AtByte(a[..], s, c);
  }

  /** The words found are there as strings, each with its NUL before place p. */
  ghost predicate AllThere(a: Str, args: seq<nat>, words: seq<Str>, p: nat, n: nat) {
    |args| == |words| && forall k :: 0 <= k < |args| ==> CStr(a, args[k], words[k]) && (args[k] + |words[k]| < p || p == n)
  }

  lemma ThereStill(a: Str, a': Str, args: seq<nat>, words: seq<Str>, p: nat, j: nat, q: nat, n: nat)
    requires AllThere(a, args, words, p, n) && Before(a, a', j) && p <= j <= q && p < n
    ensures AllThere(a', args, words, q, n)
  {
  }

  lemma ThereMore(a: Str, args: seq<nat>, words: seq<Str>, p: nat, n: nat, s: nat, x: Str)
    requires AllThere(a, args, words, p, n) && CStr(a, s, x) && (s + |x| < p || p == n)
    ensures AllThere(a, args + [s], words + [x], p, n)
  {
    hide CStr;
  }

  lemma WordsStep(b: Str, s: nat, left: nat, got: seq<Str>)
    requires s <= |b| && left > 0
    ensures var j := Skip(b, s);
            got + Words(b, s, left) ==
            if j == |b| then got else (got + [WordAt(b, j, false).s]) + Words(b, WordAt(b, j, false).next, left - 1)
  {
    var j := Skip(b, s);
    if j < |b| {
      var w := WordAt(b, j, false);
      assert got + ([w.s] + Words(b, w.next, left - 1)) == got + [w.s] + Words(b, w.next, left - 1);
    }
    hide WordAt, Skip;
  }

  lemma WordsSame(b: Str, s: nat, t: nat, max: nat)
    requires s <= |b| && t <= |b| && Skip(b, s) == Skip(b, t)
    ensures Words(b, s, max) == Words(b, t, max)
  {
    hide WordAt, Skip;
  }

  /** `tokenize`: the words of the line, at most maxargs, as strings in the
      buffer. */
  method Tokenize(a: array<byte>, maxargs: nat, ghost b: Str) returns (args: seq<nat>)
    requires NulFree(b) && Rest(a[..], b, 0)
    modifies a
    ensures |args| == |Words(b, 0, maxargs)|
    ensures forall k :: 0 <= k < |args| ==> CStr(a[..], args[k], Words(b, 0, maxargs)[k])
  {
    args := [];
    var s: nat := 0;
    ghost var got: seq<Str> := [];
    ghost var all := Words(b, 0, maxargs);
    assert got + all == all && AllThere(a[..], args, got, 0, |b|);
    hide WordAt, Words, Skip, CStr, Rest;
    for nargs := 0 to maxargs
      invariant s <= |b| && Rest(a[..], b, s) && all == got + Words(b, s, maxargs - nargs)
      invariant AllThere(a[..], args, got, s, |b|)
    {
      WordsStep(b, s, maxargs - nargs, got);
      ghost var s0 := s;
      s := SkipAll(a, s, b);
      if a[s] == 0 { break; }
      var start := s;
      ghost var was := a[..];
      s := QToken(a, start, b);
      ThereStill(was, a[..], args, got, s0, start, s, |b|);
      ghost var w := WordAt(b, start, false);
      ThereMore(a[..], args, got, s, |b|, start, w.s);
      WordsSame(b, w.next, s, maxargs - nargs - 1);
      args, got := args + [start], got + [w.s];
    }
    NoWords(b, s);
    assert got + [] == got;
  }

  lemma NoWords(b: Str, s: nat)
    requires s <= |b|
    ensures Words(b, s, 0) == []
  {
  }

  method SkipAll(a: array<byte>, s0: nat, ghost b: Str) returns (s: nat)
    requires s0 <= |b| && Rest(a[..], b, s0) && NulFree(b)
    ensures s == Skip(b, s0) && s < a.Length && Rest(a[..], b, s) && (a[s] == 0 <==> s == |b|)
  {
    s := s0;
    while a[s] != 0 && IsSep(a[s])
      invariant s0 <= s <= |b| && Skip(b, s) == Skip(b, s0)
      decreases |b| - s
    {
      s := s + 1;
    }
  }

  // ------------------------------------------------------------------
  // Tokenizing undoes quoting

  /** The strings, each as %q prints it, with a space between them. */
  function Line(l: seq<seq<Rune>>, special: set<Rune>): Str {
    if l == [] then []
    else if |l| == 1 then Printed(l[0], special)
    else Printed(l[0], special) + ([SPACE] + Line(l[1..], special))
  }

  function Texts(l: seq<seq<Rune>>): seq<Str> {
    if l == [] then [] else [Text(l[0])] + Texts(l[1..])
  }

  /** Bytes without a quote, and without a separator unless between quotes. */
  predicate Ordinary(x: Str, quoting: bool) {
    forall i :: 0 <= i < |x| ==> x[i] != QUOTE && (quoting || !IsSep(x[i]))
  }

  lemma {:induction false} OrdinaryBytes(b: Str, p: nat, x: Str, quoting: bool)
    requires At(b, p, x) && Ordinary(x, quoting)
    ensures WordAt(b, p, quoting) == Joined(x, WordAt(b, p + |x|, quoting))
    decreases |x|
  {
    if x == [] {
      assert [] + WordAt(b, p, quoting).s == WordAt(b, p, quoting).s;
    } else {
      var h, t := x[0], x[1..];
      assert x == [h] + t;
      AtJoin(b, p, [h], t);
      AtByte(b, p, h);
      OrdinaryBytes(b, p + 1, t, quoting);
      assert [h] + (t + WordAt(b, p + |x|, quoting).s) == x + WordAt(b, p + |x|, quoting).s;
    }
  }

  lemma UtfOrdinary(r: Rune, quoting: bool)
    requires r != 39 && (quoting || r > 32)
    ensures Ordinary(Utf(r), quoting)
  {
  }

  /** The end of a word in a line. */
  predicate Ends(b: Str, q: nat) {
    q == |b| || (q < |b| && IsSep(b[q]))
  }

  lemma {:induction false} PlainWord(b: Str, p: nat, rs: seq<Rune>, special: set<Rune>)
    requires At(b, p, Text(rs)) && !AnyWants(rs, special) && Ends(b, p + |Text(rs)|)
    ensures WordAt(b, p, false) == Word(Text(rs), p + |Text(rs)|)
    decreases |rs|
  {
    if rs != [] {
      var x, y := Utf(rs[0]), Text(rs[1..]);
      UtfOrdinary(rs[0], false);
      AtJoin(b, p, x, y);
      hide At, Utf, WordAt, Ordinary;
      OrdinaryBytes(b, p, x, false);
      PlainWord(b, p + |x|, rs[1..], special);
    }
  }

  /** Between quotes, up to and with the closing one. */
  lemma {:induction false} InnerWord(b: Str, p: nat, rs: seq<Rune>)
    requires At(b, p, Inner(rs)) && At(b, p + |Inner(rs)|, [QUOTE]) && Ends(b, p + |Inner(rs)| + 1)
    ensures WordAt(b, p, true) == Word(Text(rs), p + |Inner(rs)| + 1)
    decreases |rs|
  {
    hide At, Utf, WordAt, Doubled;
    if rs == [] {
      AtByte(b, p, QUOTE);
      ClosingQuote(b, p);
    } else {
      var x, y := Doubled(rs[0]), Inner(rs[1..]);
      AtJoin(b, p, x, y);
      DoubledWord(b, p, rs[0]);
      InnerWord(b, p + |x|, rs[1..]);
    }
  }

  lemma ClosingQuote(b: Str, p: nat)
    requires p < |b| && b[p] == QUOTE && Ends(b, p + 1)
    ensures WordAt(b, p, true) == Word([], p + 1)
  {
  }

  lemma DoubledWord(b: Str, p: nat, r: Rune)
    requires At(b, p, Doubled(r))
    ensures WordAt(b, p, true) == Joined(Utf(r), WordAt(b, p + |Doubled(r)|, true))
  {
    if r == 39 {
      AtJoin(b, p, [QUOTE], [QUOTE]);
      assert [QUOTE] + [QUOTE] == [QUOTE, QUOTE];
      AtByte(b, p, QUOTE);
      AtByte(b, p + 1, QUOTE);
    } else {
      UtfOrdinary(r, true);
      OrdinaryBytes(b, p, Utf(r), true);
    }
  }

  lemma QuotedWord(b: Str, p: nat, rs: seq<Rune>)
    requires At(b, p, Quoted(rs)) && Ends(b, p + |Quoted(rs)|)
    ensures WordAt(b, p, false) == Word(Text(rs), p + |Quoted(rs)|)
  {
    AtJoin(b, p, [QUOTE] + Inner(rs), [QUOTE]);
    AtJoin(b, p, [QUOTE], Inner(rs));
    AtByte(b, p, QUOTE);
    hide At, Inner, Text;
    InnerWord(b, p + 1, rs);
    OpeningQuote(b, p);
  }

  lemma OpeningQuote(b: Str, p: nat)
    requires p < |b| && b[p] == QUOTE
    ensures WordAt(b, p, false) == WordAt(b, p + 1, true)
  {
  }

  /** A printed string is read as a word, whether it is quoted or not. */
  lemma PrintedWord(b: Str, p: nat, rs: seq<Rune>, special: set<Rune>)
    requires At(b, p, Printed(rs, special)) && Ends(b, p + |Printed(rs, special)|)
    ensures p < |b| && Skip(b, p) == p && WordAt(b, p, false) == Word(Text(rs), p + |Printed(rs, special)|)
  {
    hide WordAt, Inner;
    if NeedsQuotes(rs, special) {
      QuotedWord(b, p, rs);
      AtJoin(b, p, [QUOTE] + Inner(rs), [QUOTE]);
      AtJoin(b, p, [QUOTE], Inner(rs));
      AtByte(b, p, QUOTE);
    } else {
      PlainWord(b, p, rs, special);
      AtJoin(b, p, Utf(rs[0]), Text(rs[1..]));
      UtfOrdinary(rs[0], false);
      FirstByte(b, p, Utf(rs[0]));
    }
  }

  lemma FirstByte(b: Str, p: nat, x: Str)
    requires At(b, p, x) && x != []
    ensures p < |b| && b[p] == x[0]
  {
    assert b[p + 0] == x[0];
  }

  lemma FirstOfLine(b: Str, p: nat, rs: seq<Rune>, special: set<Rune>, q: nat, max: nat)
    requires At(b, p, Printed(rs, special)) && q == p + |Printed(rs, special)| && q <= |b| && Ends(b, q) && max > 0
    ensures Words(b, p, max) == [Text(rs)] + Words(b, q, max - 1)
  {
    PrintedWord(b, p, rs, special);
    hide At, Printed, Text, Words, WordAt, Skip;
    WordsOne(b, p, max);
  }

  lemma NextOfLine(b: Str, q: nat, y: Str, max: nat)
    requires At(b, q, [SPACE] + y)
    ensures q + 1 <= |b| && At(b, q + 1, y) && Ends(b, q) && Words(b, q, max) == Words(b, q + 1, max)
  {
    hide At, Words, Skip;
    AtBoth(b, q, [SPACE], q + 1, y);
    AtByte(b, q, SPACE);
    SkipSep(b, q);
    WordsSame(b, q, q + 1, max);
  }

  /** The words of a line of printed strings are the strings, for every choice of
      the runes to be quoted. */
  lemma {:induction false} WordsOfLine(b: Str, p: nat, l: seq<seq<Rune>>, special: set<Rune>, max: nat)
    requires At(b, p, Line(l, special)) && p + |Line(l, special)| == |b| && |l| <= max
    ensures Words(b, p, max) == Texts(l)
    decreases |l|, 1
  {
    if l == [] {
      LineEnds(b, max);
    } else {
      WordsOfMore(b, p, l[0], l[1..], special, max);
      assert l == [l[0]] + l[1..];
    }
  }

  lemma {:induction false} WordsOfMore(b: Str, p: nat, rs: seq<Rune>, t: seq<seq<Rune>>, special: set<Rune>, max: nat)
    requires At(b, p, Line([rs] + t, special)) && p + |Line([rs] + t, special)| == |b| && 1 + |t| <= max
    ensures Words(b, p, max) == Texts([rs] + t)
    decreases 1 + |t|, 0
  {
    LineIs(rs, t, special);
    hide At, Printed, Text, Line, Words, Texts, Ends;
    var x := Printed(rs, special);
    var q := p + |x|;
    if t == [] {
      FirstOfLine(b, p, rs, special, q, max) by { EndsThere(b); }
      LineEnds(b, max - 1);
    } else {
      var y := Line(t, special);
      AtBoth(b, p, x, q, [SPACE] + y);
      NextOfLine(b, q, y, max - 1);
      FirstOfLine(b, p, rs, special, q, max);
      WordsOfLine(b, q + 1, t, special, max - 1);
    }
  }

  lemma EndsThere(b: Str)
    ensures Ends(b, |b|)
  {
  }

  lemma LineIs(rs: seq<Rune>, t: seq<seq<Rune>>, special: set<Rune>)
    ensures Texts([rs] + t) == [Text(rs)] + Texts(t) && Texts([]) == []
    ensures Line([rs] + t, special) == if t == [] then Printed(rs, special)
              else Printed(rs, special) + ([SPACE] + Line(t, special))
  {
    assert ([rs] + t)[1..] == t;
    hide Printed, Text;
  }

  lemma WordsOne(b: Str, p: nat, max: nat)
    requires p < |b| && Skip(b, p) == p && max > 0
    ensures var w := WordAt(b, p, false); Words(b, p, max) == [w.s] + Words(b, w.next, max - 1)
  {
    hide WordAt, Skip;
  }

  lemma LineEnds(b: Str, max: nat)
    ensures Words(b, |b|, max) == []
  {
  }

  /** Bytes that are part of a word wherever they are. */
  predicate Common(y: byte) {
    y != 32 && y != 9 && y != 13 && y != 10 && y != 39
  }

  lemma {:induction false} CommonWord(b: Str, p: nat, x: Str)
    requires At(b, p, x) && (forall y <- x :: Common(y))
    requires p + |x| == |b| || b[p + |x|] == 32 || b[p + |x|] == 9 || b[p + |x|] == 13 || b[p + |x|] == 10
    ensures WordAt(b, p, false) == Word(x, p + |x|)
    decreases |x|
  {
    if x != [] {
      assert b[p + 0] == x[0] && x[0] in x;
      assert forall k :: 0 <= k < |x| - 1 ==> b[p + 1 + k] == b[p + (k + 1)] == x[k + 1] == x[1..][k];
      CommonWord(b, p + 1, x[1..]);
    }
  }

  /** Words of common bytes are cut at blanks, tabs, returns and newlines, and
      nowhere else. */
  lemma BlanksCut(b: Str, p: nat, x: Str, max: nat)
    requires p <= |b| && max > 0
    ensures p < |b| && (b[p] == 32 || b[p] == 9 || b[p] == 13 || b[p] == 10) ==> Words(b, p, max) == Words(b, p + 1, max)
    ensures At(b, p, x) && x != [] && (forall y <- x :: Common(y))
            && (p + |x| == |b| || b[p + |x|] == 32 || b[p + |x|] == 9 || b[p + |x|] == 13 || b[p + |x|] == 10) ==>
              Words(b, p, max) == [x] + Words(b, p + |x|, max - 1)
  {
    if At(b, p, x) && x != [] && (forall y <- x :: Common(y))
       && (p + |x| == |b| || b[p + |x|] == 32 || b[p + |x|] == 9 || b[p + |x|] == 13 || b[p + |x|] == 10) {
      CommonWord(b, p, x);
      assert b[p + 0] == x[0] && x[0] in x;
    }
    hide WordAt;
  }

  /** There is a string in a from p on, to its NUL, which is these runes. */
  ghost predicate Spells(a: Str, p: nat, rs: seq<Rune>) {
    exists s :: CStr(a, p, s) && Runes(s) == Some(Ints(rs))
  }

  lemma {:induction false} TextsSpell(l: seq<seq<Rune>>)
    ensures |Texts(l)| == |l| && forall k :: 0 <= k < |l| ==> Runes(Texts(l)[k]) == Some(Ints(l[k]))
  {
    hide Text, Runes, Ints;
    if l != [] {
      TextRunes(l[0]);
      TextsSpell(l[1..]);
      assert forall k :: 0 < k < |l| ==> l[k] == l[1..][k - 1];
    }
  }

  /** The words of the line are the strings, rune by rune. */
  lemma RunesOfLine(l: seq<seq<Rune>>, special: set<Rune>, max: nat)
    requires |l| <= max
    ensures var ws := Words(Line(l, special), 0, max);
            |ws| == |l| && forall k :: 0 <= k < |l| ==> Runes(ws[k]) == Some(Ints(l[k]))
  {
    assert At(Line(l, special), 0, Line(l, special));
    WordsOfLine(Line(l, special), 0, l, special, max);
    TextsSpell(l);
    hide Words, Line, Runes, Ints;
  }

  /** Quoting and tokenizing give the strings back, in place. */
  method ThereAndBack(l: seq<seq<Rune>>, special: set<Rune>, a: array<byte>, maxargs: nat) returns (args: seq<nat>)
    requires |l| <= maxargs && Rest(a[..], Line(l, special), 0)
    modifies a
    ensures |args| == |l| == |Texts(l)| && forall k :: 0 <= k < |args| ==> CStr(a[..], args[k], Texts(l)[k])
    ensures forall k :: 0 <= k < |args| ==> Spells(a[..], args[k], l[k])
  {
    ghost var b := Line(l, special);
    assert At(b, 0, b);
    WordsOfLine(b, 0, l, special, maxargs);
    TextsSpell(l);
    LineNulFree(l, special);
    hide Words, Line, CStr, Runes, Ints;
    args := Tokenize(a, maxargs, b);
  }

  lemma NulFreeJoin(x: Str, y: Str)
    requires NulFree(x) && NulFree(y)
    ensures NulFree(x + y)
  {
  }

  lemma {:induction false} TextNulFree(rs: seq<Rune>)
    ensures NulFree(Text(rs)) && NulFree(Inner(rs))
  {
    if rs != [] {
      TextNulFree(rs[1..]);
      NulFreeJoin(Utf(rs[0]), Text(rs[1..]));
      NulFreeJoin(Doubled(rs[0]), Inner(rs[1..]));
    }
  }

  lemma {:induction false} LineNulFree(l: seq<seq<Rune>>, special: set<Rune>)
    ensures NulFree(Line(l, special))
  {
    if l != [] {
      TextNulFree(l[0]);
      NulFreeJoin([QUOTE], Inner(l[0]));
      NulFreeJoin([QUOTE] + Inner(l[0]), [QUOTE]);
      LineNulFree(l[1..], special);
      NulFreeJoin([SPACE], Line(l[1..], special));
      NulFreeJoin(Printed(l[0], special), [SPACE] + Line(l[1..], special));
    }
  }
}
