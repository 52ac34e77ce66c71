/**
 Quoted strings: how they are printed (lib9/fmtquote.c) and how a line of them is
 cut into its words again, in place (lib9/tokenize.c).
 */
module Quoting {
  import opened Basics
  import opened ByteStrings

  type Rune = x: int | 0 < x < 65536 witness 1

  const QUOTE: byte := 39
  const SPACE: byte := 32

  /** A rune in UTF-8, by the forms of up to three bytes. */
  function Utf(r: Rune): (b: Str)
    ensures 1 <= |b| <= 3
    ensures r < 128 ==> b == [r]
    ensures r >= 128 ==> forall i :: 0 <= i < |b| ==> b[i] >= 128
  {
    if r < 0x80 then [r]
    else if r < 0x800 then [0xC0 + r / 64, 0x80 + r % 64]
    else [0xE0 + r / 4096, 0x80 + r / 64 % 64, 0x80 + r % 64]
  }

  /** The first rune of some text and the number of its bytes, by section 3 of
      RFC 3629; nothing if there is none, or not in the shortest form. */
  function FirstRune(s: Str): Option<(int, nat)> {
    if s == [] then None
    else
      var a: int := s[0];
      var b: int := if |s| >= 2 then s[1] else 0;
      var c: int := if |s| >= 3 then s[2] else 0;
      if a < 0x80 then Some((a, 1))
      else if 0xC0 <= a <= 0xDF && 0x80 <= b <= 0xBF then
        var r := (a - 0xC0) * 64 + (b - 0x80);
        if r >= 0x80 then Some((r, 2)) else None
      else if 0xE0 <= a <= 0xEF && 0x80 <= b <= 0xBF && 0x80 <= c <= 0xBF then
        var r := (a - 0xE0) * 4096 + (b - 0x80) * 64 + (c - 0x80);
        if r >= 0x800 then Some((r, 3)) else None
      else None
  }

  /** Whatever is read as a rune is its bytes. */
  lemma RuneForth(s: Str)
    requires FirstRune(s).Some? && FirstRune(s).value.0 > 0
    ensures var (r, n) := FirstRune(s).value; r < 65536 && n <= |s| && s[..n] == Utf(r)
  {
    var (r, n) := FirstRune(s).value;
    if n == 2 {
      var a: int, b: int := s[0], s[1];
      Div64(a - 0xC0, b - 0x80);
    } else if n == 3 {
      var a: int, b: int, c: int := s[0], s[1], s[2];
      Div64((a - 0xE0) * 64 + (b - 0x80), c - 0x80);
      Div64(a - 0xE0, b - 0x80);
      assert r / 4096 == r / 64 / 64;
    }
    BytesAre(s, r, n);
  }

  lemma Div64(x: int, y: int)
    requires 0 <= y < 64
    ensures (x * 64 + y) / 64 == x && (x * 64 + y) % 64 == y
  {
  }

  lemma BytesAre(s: Str, r: int, n: nat)
    requires 0 < r < 65536 && n <= |s|
    requires if r < 0x80 then n == 1 && s[0] == r
             else if r < 0x800 then n == 2 && s[0] == 0xC0 + r / 64 && s[1] == 0x80 + r % 64
             else n == 3 && s[0] == 0xE0 + r / 4096 && s[1] == 0x80 + r / 64 % 64 && s[2] == 0x80 + r % 64
    ensures s[..n] == Utf(r)
  {
  }

  /** The runes of some text. */
  function Runes(s: Str): Option<seq<int>>
    decreases |s|
  {
    if s == [] then Some([])
    else
      match FirstRune(s)
      case None => None
      case Some((r, n)) =>
        if n > |s| || n == 0 then None
        else
          match Runes(s[n..])
          case None => None
          case Some(rest) => Some([r] + rest)
  }

  /** A rune is read back from its bytes, whatever follows. */
  lemma RuneBack(r: Rune, rest: Str)
    ensures FirstRune(Utf(r) + rest) == Some((r as int, |Utf(r)|))
  {
  }

  lemma RunesMore(r: Rune, rest: Str)
    ensures Runes(Utf(r) + rest) == match Runes(rest) case None => None case Some(rs) => Some([r as int] + rs)
  {
    RuneBack(r, rest);
    hide Utf, FirstRune;
    assert (Utf(r) + rest)[|Utf(r)|..] == rest;
  }

  /** The runes that are quoted, with the quotes doubled. */
  function DoubledRunes(rs: seq<Rune>): seq<int> {
    if rs == [] then [] else (if rs[0] == 39 then [39, 39] else [rs[0] as int]) + DoubledRunes(rs[1..])
  }

  function Ints(rs: seq<Rune>): seq<int> {
    seq(|rs|, i requires 0 <= i < |rs| => rs[i] as int)
  }

  /** Text is read back as the runes it is made of. */
  lemma {:induction false} TextRunes(rs: seq<Rune>)
    ensures Runes(Text(rs)) == Some(Ints(rs))
  {
    hide Utf, FirstRune;
    if rs == [] {
      assert Ints(rs) == [];
    } else {
      TextRunes(rs[1..]);
      RunesMore(rs[0], Text(rs[1..]));
      assert Ints(rs) == [rs[0] as int] + Ints(rs[1..]);
    }
  }

  lemma QuoteByte()
    ensures Utf(39) == [QUOTE]
  {
  }

  lemma {:induction false} InnerIs(rs: seq<Rune>, rest: Str)
    ensures Runes(Inner(rs) + rest) == match Runes(rest) case None => None case Some(more) => Some(DoubledRunes(rs) + more)
  {
    hide Utf, FirstRune, Runes;
    if rs == [] {
      assert Inner(rs) + rest == rest && Runes(rest).Some? ==> [] + Runes(rest).value == Runes(rest).value;
    } else {
      var tail := Inner(rs[1..]) + rest;
      InnerIs(rs[1..], rest);
      QuoteByte();
      if rs[0] == 39 {
        RunesMore(39, tail);
        RunesMore(39, Utf(39) + tail);
        assert Inner(rs) + rest == Utf(39) + (Utf(39) + tail);
      } else {
        RunesMore(rs[0], tail);
        assert Inner(rs) + rest == Utf(rs[0]) + tail;
      }
      if Runes(rest).Some? { Regroup(rs, Runes(rest).value); }
    }
  }

  lemma Regroup(rs: seq<Rune>, more: seq<int>)
    requires rs != []
    ensures DoubledRunes(rs) + more
         == if rs[0] == 39 then [39] + ([39] + (DoubledRunes(rs[1..]) + more)) else [rs[0] as int] + (DoubledRunes(rs[1..]) + more)
  {
  }

  /** What is quoted is read back as the runes with a quote at each end, and those
      inside doubled. */
  lemma QuotedIs(rs: seq<Rune>)
    ensures Runes(Quoted(rs)) == Some([39] + DoubledRunes(rs) + [39])
  {
    hide Utf, FirstRune, Inner, DoubledRunes;
    QuoteByte();
    RunesMore(39, []);
    assert [QUOTE] + [] == [QUOTE] && Utf(39) + [] == [QUOTE];
    assert Runes([]) == Some([]);
    InnerIs(rs, [QUOTE]);
    RunesMore(39, Inner(rs) + [QUOTE]);
    assert Quoted(rs) == Utf(39) + (Inner(rs) + [QUOTE]);
    assert [39] + [] == [39] && [39] + (DoubledRunes(rs) + [39]) == [39] + DoubledRunes(rs) + [39];
  }

  /** Different strings are different text. */
  lemma TextOnce(rs: seq<Rune>, qs: seq<Rune>)
    requires Text(rs) == Text(qs)
    ensures rs == qs
  {
    TextRunes(rs);
    TextRunes(qs);
    hide Text, Runes;
    assert |Ints(rs)| == |rs| && |Ints(qs)| == |qs|;
    assert forall i :: 0 <= i < |rs| ==> Ints(rs)[i] == rs[i] && Ints(qs)[i] == qs[i];
  }

  function Text(rs: seq<Rune>): Str {
    if rs == [] then [] else Utf(rs[0]) + Text(rs[1..])
  }

  /** Between quotes, a quote is doubled. */
  function Doubled(r: Rune): Str {
    if r == 39 then [QUOTE, QUOTE] else Utf(r)
  }

  function Inner(rs: seq<Rune>): Str {
    if rs == [] then [] else Doubled(rs[0]) + Inner(rs[1..])
  }

  function Quoted(rs: seq<Rune>): Str {
    [QUOTE] + Inner(rs) + [QUOTE]
  }

  /** The number of runes in the quoted form. */
  function InnerRunes(rs: seq<Rune>): nat {
    if rs == [] then 0 else (if rs[0] == 39 then 2 else 1) + InnerRunes(rs[1..])
  }

  /** A rune that makes quotes necessary; `special` are those the program's own
      function asks for. */
  predicate Wants(r: Rune, special: set<Rune>) {
    r <= 32 || r == 39 || r in special
  }

  predicate AnyWants(rs: seq<Rune>, special: set<Rune>) {
    rs != [] && (Wants(rs[0], special) || AnyWants(rs[1..], special))
  }

  predicate NeedsQuotes(rs: seq<Rune>, special: set<Rune>) {
    rs == [] || AnyWants(rs, special)
  }

  /** What %q prints. */
  function Printed(rs: seq<Rune>, special: set<Rune>): Str {
    if NeedsQuotes(rs, special) then Quoted(rs) else Text(rs)
  }

  /** What is printed as it is: no blank or control character, no quote and
      nothing special, and something. */
  lemma PlainIff(rs: seq<Rune>, special: set<Rune>)
    ensures NeedsQuotes(rs, special) <==> rs == [] || exists i :: 0 <= i < |rs| && (rs[i] < 33 || rs[i] == 39 || rs[i] in special)
  {
    AnyIff(rs, special);
  }

  lemma {:induction false} AnyIff(rs: seq<Rune>, special: set<Rune>)
    ensures AnyWants(rs, special) <==> exists i :: 0 <= i < |rs| && (rs[i] < 33 || rs[i] == 39 || rs[i] in special)
  {
    if rs != [] {
      AnyIff(rs[1..], special);
      if i :| 0 < i < |rs| && (rs[i] < 33 || rs[i] == 39 || rs[i] in special) {
        assert rs[1..][i - 1] == rs[i];
      }
      if i :| 0 <= i < |rs[1..]| && (rs[1..][i] < 33 || rs[1..][i] == 39 || rs[1..][i] in special) {
        assert rs[i + 1] == rs[1..][i];
      }
    }
  }

  // ------------------------------------------------------------------
  // Printing

  datatype Info = Info(quoted: bool, runesIn: nat, bytesIn: nat, runesOut: nat, bytesOut: nat)

  /** The length of the form that is chosen, in runes or in bytes. */
  function Length(rs: seq<Rune>, quoted: bool, inRunes: bool): nat {
    if inRunes then (if quoted then 2 + InnerRunes(rs) else |rs|) else if quoted then 2 + |Inner(rs)| else |Text(rs)|
  }

  /** The counts are those of the accepted prefix in the form that is chosen. */
  ghost predicate Counts(q: Info, rs: seq<Rune>) {
    && q.runesIn <= |rs|
    && var p := rs[..q.runesIn];
    && q.bytesIn == |Text(p)| && q.bytesOut == Length(p, q.quoted, false) && q.runesOut == Length(p, q.quoted, true)
    && (!q.quoted ==> |Inner(p)| == |Text(p)| && InnerRunes(p) == |p|)
  }

  lemma Snoc(rs: seq<Rune>, r: Rune)
    ensures Text(rs + [r]) == Text(rs) + Utf(r) && Inner(rs + [r]) == Inner(rs) + Doubled(r)
    ensures InnerRunes(rs + [r]) == InnerRunes(rs) + if r == 39 then 2 else 1
  {
    SnocText(rs, r);
    SnocInner(rs, r);
    hide Text, Inner, InnerRunes, Utf, Doubled;
  }

  lemma {:induction false} SnocText(rs: seq<Rune>, r: Rune)
    ensures Text(rs + [r]) == Text(rs) + Utf(r)
    decreases |rs|
  {
    hide Utf;
    if rs == [] {
      assert [] + [r] == [r] && [r][1..] == [];
      assert Utf(r) + [] == Utf(r);
    } else {
      SnocText(rs[1..], r);
      assert (rs + [r])[0] == rs[0] && (rs + [r])[1..] == rs[1..] + [r];
    }
  }

  lemma {:induction false} SnocInner(rs: seq<Rune>, r: Rune)
    ensures Inner(rs + [r]) == Inner(rs) + Doubled(r)
    ensures InnerRunes(rs + [r]) == InnerRunes(rs) + if r == 39 then 2 else 1
    decreases |rs|
  {
    hide Doubled;
    if rs == [] {
      assert [] + [r] == [r] && [r][1..] == [];
      assert Doubled(r) + [] == Doubled(r);
    } else {
      SnocInner(rs[1..], r);
      assert (rs + [r])[0] == rs[0] && (rs + [r])[1..] == rs[1..] + [r];
    }
  }

  lemma {:induction false} WantsSoFar(rs: seq<Rune>, r: Rune, special: set<Rune>)
    ensures AnyWants(rs + [r], special) <==> AnyWants(rs, special) || Wants(r, special)
    decreases |rs|
  {
    hide Wants;
    if rs == [] {
      assert [] + [r] == [r] && [r][1..] == [];
    } else {
      WantsSoFar(rs[1..], r, special);
      assert (rs + [r])[0] == rs[0] && (rs + [r])[1..] == rs[1..] + [r];
    }
  }

  /** No prefix is longer than the whole. */
  lemma {:induction false} UpTo(rs: seq<Rune>, i: nat)
    requires i <= |rs|
    ensures |Text(rs[..i])| <= |Text(rs)| && |Inner(rs[..i])| <= |Inner(rs)| && InnerRunes(rs[..i]) <= InnerRunes(rs)
    decreases |rs| - i
  {
    hide Text, Inner, InnerRunes;
    if i < |rs| {
      UpTo(rs, i + 1);
      Snoc(rs[..i], rs[i]);
      assert rs[..i] + [rs[i]] == rs[..i + 1];
    } else {
      assert rs[..i] == rs;
    }
  }

  lemma {:induction false} DoublingAdds(rs: seq<Rune>)
    ensures |Inner(rs)| >= |Text(rs)| && InnerRunes(rs) >= |rs|
  {
    if rs != [] { DoublingAdds(rs[1..]); }
  }

  lemma LengthsMore(rs: seq<Rune>, i: nat)
    requires i < |rs|
    ensures var p, p', c := rs[..i], rs[..i + 1], rs[i];
            && |Text(p')| == |Text(p)| + |Utf(c)| && (c == 39 ==> |Utf(c)| == 1)
            && |Inner(p')| == |Inner(p)| + |Utf(c)| + (if c == 39 then 1 else 0)
            && InnerRunes(p') == InnerRunes(p) + (if c == 39 then 2 else 1)
  {
    Snoc(rs[..i], rs[i]);
    assert rs[..i] + [rs[i]] == rs[..i + 1];
    hide Text, Inner, InnerRunes;
  }

  /** One rune more, if there is room for it. */
  method Accept(q0: Info, rs: seq<Rune>, limit: nat, inRunes: bool, special: set<Rune>) returns (ok: bool, q: Info)
    requires Counts(q0, rs) && q0.runesIn < |rs| && (if inRunes then q0.runesOut else q0.bytesOut) <= limit
    ensures Counts(q, rs) && (if inRunes then q.runesOut else q.bytesOut) <= limit
    ensures var quoted := q0.quoted || Wants(rs[q0.runesIn], special);
            && ok == (Length(rs[..q0.runesIn + 1], quoted, inRunes) <= limit)
            && (if ok then q.runesIn == q0.runesIn + 1 && q.quoted == quoted else q.runesIn == q0.runesIn)
  {
    q, ok := q0, false;
    var i := q.runesIn;
    var c := rs[i];
    var w := |Utf(c)|;
    LengthsMore(rs, i);
    hide Text, Inner, InnerRunes, Utf;
    if inRunes {
      if q.runesOut + 1 > limit { return; }
    } else {
      if q.bytesOut + w > limit { return; }
    }
    if Wants(c, special) {
      if !q.quoted {
        if inRunes {
          if 1 + q.runesOut + 1 + 1 > limit { return; }
        } else {
          if 1 + q.bytesOut + w + 1 > limit { return; }
        }
        q := q.(runesOut := q.runesOut + 2, bytesOut := q.bytesOut + 2, quoted := true);
      }
      if c == 39 {
        if inRunes {
          if 1 + q.runesOut + 1 > limit { return; }
        } else {
          if 1 + q.bytesOut + w > limit { return; }
        }
        q := q.(bytesOut := q.bytesOut + 1, runesOut := q.runesOut + 1);
      }
    }
    q := q.(bytesIn := q.bytesIn + w, runesIn := q.runesIn + 1, bytesOut := q.bytesOut + w, runesOut := q.runesOut + 1);
    ok := true;
  }

  /** What does not fit as a prefix does not fit as a whole. */
  lemma TooLong(rs: seq<Rune>, i: nat, quoted: bool, wants: bool, inRunes: bool)
    requires i <= |rs| && (quoted ==> wants)
    ensures Length(rs[..i], quoted, inRunes) <= Length(rs, wants, inRunes)
  {
    UpTo(rs, i);
    DoublingAdds(rs);
    hide Text, Inner, InnerRunes;
  }

  lemma Nothing()
    ensures Counts(Info(false, 0, 0, 0, 0), []) && Counts(Info(true, 0, 0, 2, 2), [])
    ensures forall inRunes :: Length([], true, inRunes) == 2
  {
  }

  lemma Start(rs: seq<Rune>)
    ensures Counts(Info(false, 0, 0, 0, 0), rs) && Counts(Info(true, 0, 0, 2, 2), rs)
  {
    assert rs[..0] == [];
  }

  lemma {:induction false} WantsPart(rs: seq<Rune>, i: nat, special: set<Rune>)
    requires i <= |rs|
    ensures AnyWants(rs[..i], special) ==> AnyWants(rs, special)
    decreases |rs|
  {
    hide Wants;
    if i > 0 {
      assert rs[..i][0] == rs[0] && rs[..i][1..] == rs[1..][..i - 1];
      WantsPart(rs[1..], i - 1, special);
    }
  }

  /** `_quotesetup`: `limit` is the room there is, in runes or in bytes.  The
      whole string is accepted exactly when the form it needs fits. */
  method QuoteSetup(rs: seq<Rune>, limit: nat, sharp: bool, inRunes: bool, special: set<Rune>) returns (q: Info)
    ensures Counts(q, rs) && (if inRunes then q.runesOut else q.bytesOut) <= limit
    ensures var wants := sharp || NeedsQuotes(rs, special);
            (q.runesIn == |rs| && q.quoted == wants) <==> Length(rs, wants, inRunes) <= limit
  {
    q := Info(false, 0, 0, 0, 0);
    Start(rs);
    ghost var wants := sharp || NeedsQuotes(rs, special);
    hide Counts, Length, Wants, AnyWants;
    if sharp || rs == [] {
      if limit < 2 {
        TooLong(rs, 0, true, true, inRunes);
        Nothing();
        assert rs[..0] == [];
        return;
      }
      q := Info(true, 0, 0, 2, 2);
    }
    assert rs[..0] == [] && !AnyWants(rs[..0], special) by { NoneWanted(special); }
    for i := 0 to |rs|
      invariant Counts(q, rs) && q.runesIn == i && (if inRunes then q.runesOut else q.bytesOut) <= limit
      invariant q.quoted == (sharp || rs == [] || AnyWants(rs[..i], special))
    {
      ghost var quoted := q.quoted || Wants(rs[i], special);
      WantsSoFar(rs[..i], rs[i], special);
      assert rs[..i] + [rs[i]] == rs[..i + 1];
      WantsPart(rs, i + 1, special);
      var ok;
      ok, q := Accept(q, rs, limit, inRunes, special);
      if !ok {
        TooLong(rs, i + 1, quoted, wants, inRunes);
        return;
      }
    }
    assert rs[..|rs|] == rs;
    Counted(q, rs, inRunes);
  }

  lemma NoneWanted(special: set<Rune>)
    ensures !AnyWants([], special)
  {
  }

  lemma Counted(q: Info, rs: seq<Rune>, inRunes: bool)
    requires Counts(q, rs) && q.runesIn == |rs|
    ensures (if inRunes then q.runesOut else q.bytesOut) == Length(rs, q.quoted, inRunes)
  {
    assert rs[..|rs|] == rs;
  }

  /** How many runes some text has: bytes other than 10xxxxxx begin one. */
  function RunesOf(s: Str): nat {
    if s == [] then 0 else (if 0x80 <= s[0] < 0xC0 then 0 else 1) + RunesOf(s[1..])
  }

  lemma {:induction false} RunesJoin(x: Str, y: Str)
    ensures RunesOf(x + y) == RunesOf(x) + RunesOf(y)
  {
    if x == [] {
      assert x + y == y;
    } else {
      RunesJoin(x[1..], y);
      assert (x + y)[1..] == x[1..] + y;
    }
  }

  lemma RuneIsOne(r: Rune)
    ensures RunesOf(Utf(r)) == 1
  {
    var s := Utf(r);
    if |s| > 1 {
      assert 0x80 <= s[1] < 0xC0 && s[0] >= 0xC0;
      RunesJoin(s[..1], s[1..]);
      assert RunesOf(s[1..][1..]) == 0 by { if |s| > 2 { assert s[1..][1..] == [s[2]] && 0x80 <= s[2] < 0xC0; } }
    }
  }

  /** Quoted or not, the text has as many runes as are counted. */
  lemma {:induction false} RunesAre(rs: seq<Rune>)
    ensures RunesOf(Text(rs)) == |rs| && RunesOf(Inner(rs)) == InnerRunes(rs)
  {
    hide Utf;
    if rs != [] {
      RunesAre(rs[1..]);
      RuneIsOne(rs[0]);
      RunesJoin(Utf(rs[0]), Text(rs[1..]));
      RunesJoin(Doubled(rs[0]), Inner(rs[1..]));
    }
  }

  lemma RunesPrinted(rs: seq<Rune>)
    ensures RunesOf(Text(rs)) == |rs| && RunesOf(Quoted(rs)) == 2 + InnerRunes(rs)
  {
    RunesAre(rs);
    RunesJoin([QUOTE], Inner(rs));
    RunesJoin([QUOTE] + Inner(rs), [QUOTE]);
    hide Text, Inner, InnerRunes;
  }

  /** `qstrfmt` into a buffer that holds what comes, and `_fmtcpy` when no quotes
      are needed: the accepted runes in the form chosen, as long as foreseen. */
  method Print(rs: seq<Rune>, q: Info) returns (out: Str)
    requires Counts(q, rs)
    ensures out == if q.quoted then Quoted(rs[..q.runesIn]) else Text(rs[..q.runesIn])
    ensures |out| == q.bytesOut && RunesOf(out) == q.runesOut
    ensures Runes(out) == Some(if q.quoted then [39] + DoubledRunes(rs[..q.runesIn]) + [39] else Ints(rs[..q.runesIn]))
  {
    RunesPrinted(rs[..q.runesIn]);
    TextRunes(rs[..q.runesIn]);
    QuotedIs(rs[..q.runesIn]);
    out := if q.quoted then [QUOTE] else [];
    ghost var front := out;
    assert rs[..0] == [] && front + [] == front && Inner([]) == [] && Text([]) == [];
    hide Utf, Inner, Text, Doubled, RunesOf, InnerRunes, Runes, DoubledRunes, Ints;
    for i := 0 to q.runesIn
      invariant out == front + if q.quoted then Inner(rs[..i]) else Text(rs[..i])
    {
      out := PrintOne(out, rs, i, q.quoted, front);
    }
    if q.quoted { out := out + [QUOTE]; }
  }

  method PrintOne(out0: Str, rs: seq<Rune>, i: nat, quoted: bool, ghost front: Str) returns (out: Str)
    requires i < |rs| && out0 == front + if quoted then Inner(rs[..i]) else Text(rs[..i])
    ensures out == front + if quoted then Inner(rs[..i + 1]) else Text(rs[..i + 1])
  {
    var r := rs[i];
    ghost var p := rs[..i];
    Snoc(p, r);
    assert p + [r] == rs[..i + 1];
    ghost var form := if quoted then Inner(p) else Text(p);
    Assoc(front, form, if quoted then Doubled(r) else Utf(r));
    if r == 39 { QuoteIs(r); }
    assert Doubled(r) == if r == 39 then [QUOTE, QUOTE] else Utf(r);
    hide Inner, Text, Utf, Doubled;
    out := out0 + Utf(r);
    if quoted && r == 39 {
      Assoc(out0, Utf(r), Utf(r));
      out := out + Utf(r);
    }
  }

  lemma Assoc(x: Str, y: Str, z: Str)
    ensures x + (y + z) == (x + y) + z
  {
  }

  lemma QuoteIs(r: Rune)
    requires r == 39
    ensures Utf(r) == [QUOTE]
  {
  }

  /** `_quotestrfmt`: what is printed never exceeds the room, and is the whole
      quoted string as soon as that fits. */
  method QuoteStrFmt(rs: seq<Rune>, limit: nat, special: set<Rune>) returns (out: Str)
    ensures |out| <= limit
    ensures |Printed(rs, special)| <= limit ==> out == Printed(rs, special)
  {
    var q := QuoteSetup(rs, limit, false, false, special);
    assert |Printed(rs, special)| == Length(rs, NeedsQuotes(rs, special), false);
    out := Print(rs, q);
    assert rs[..|rs|] == rs;
  }
}
