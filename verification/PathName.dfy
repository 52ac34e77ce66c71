/**
 `cleanname` (lib9/cleanname.c): rewrite a path name in place, dropping empty
 and "." elements and resolving "..".  The specification splits the name into
 elements and keeps a stack of them.
 */
module PathName {

  type Element = seq<char>

  /** The pieces between slashes. */
  function Split(s: seq<char>): (r: seq<Element>)
    ensures |r| > 0
    decreases |s|
  {
    if s == [] then [[]]
    else if s[0] == '/' then [[]] + Split(s[1..])
    else var r := Split(s[1..]); [[s[0]] + r[0]] + r[1..]
  }

  function Join(st: seq<Element>): seq<char> {
    if st == [] then []
    else if |st| == 1 then st[0]
    else Join(st[..|st| - 1]) + ['/'] + st[|st| - 1]
  }

  /** What one element does to the stack of those before it. */
  function Push(rooted: bool, st: seq<Element>, e: Element): seq<Element> {
    if e == "" || e == "." then st
    else if e == ".." then
      if st != [] && st[|st| - 1] != ".." then st[..|st| - 1]
      else if rooted then st
      else st + [e]
    else st + [e]
  }

  function PushAll(rooted: bool, st: seq<Element>, es: seq<Element>): seq<Element>
    decreases |es|
  {
    if es == [] then st else PushAll(rooted, Push(rooted, st, es[0]), es[1..])
  }

  predicate Rooted(s: seq<char>) { s != [] && s[0] == '/' }

  function Elements(s: seq<char>): seq<Element> {
    PushAll(Rooted(s), [], Split(s))
  }

  function Render(rooted: bool, st: seq<Element>): seq<char> {
    (if rooted then ['/'] else []) + Join(st)
  }

  /** The clean form of a name. */
  function Clean(s: seq<char>): seq<char> {
    var r := Render(Rooted(s), Elements(s));
    if r == [] then "." else r
  }

  // ------------------------------------------------------------------
  // Elements and their stacks

  predicate NoSlashes(es: seq<Element>) {
    forall i :: 0 <= i < |es| ==> '/' !in es[i]
  }

  predicate IsName(e: Element) {
    e != [] && e != "." && e != ".." && '/' !in e
  }

  /** Leading ".."s, none in a rooted name, and then proper names. */
  predicate Normal(rooted: bool, st: seq<Element>, dots: nat) {
    && dots <= |st| && (rooted ==> dots == 0)
    && (forall i :: 0 <= i < dots ==> st[i] == "..")
    && (forall i :: dots <= i < |st| ==> IsName(st[i]))
  }

  lemma {:induction false} SplitFirst(t: seq<char>, k: nat)
    requires k <= |t| && '/' !in t[..k] && (k == |t| || t[k] == '/')
    ensures Split(t) == [t[..k]] + Split(t[k..])[1..] && Split(t[k..])[0] == []
    decreases k
  {
    if k == 0 {
      assert t[..0] == [] && t[0..] == t;
    } else {
      assert t[0] == t[..k][0];
      assert t[1..][..k - 1] == t[..k][1..] && t[1..][k - 1..] == t[k..];
      SplitFirst(t[1..], k - 1);
      assert t[..k] == [t[0]] + t[1..][..k - 1];
    }
  }

  /** Reading the first element of what is left, which ends at k. */
  lemma Advance(rooted: bool, st: seq<Element>, t: seq<char>, k: nat)
    requires k <= |t| && '/' !in t[..k] && (k == |t| || t[k] == '/')
    ensures PushAll(rooted, st, Split(t)) == PushAll(rooted, Push(rooted, st, t[..k]), Split(t[k..]))
  {
    SplitFirst(t, k);
    var e, rest := t[..k], Split(t[k..])[1..];
    assert Split(t)[1..] == rest && Split(t)[0] == e;
    assert Split(t[k..]) == [[]] + rest;
    assert PushAll(rooted, Push(rooted, st, e), Split(t[k..])) == PushAll(rooted, Push(rooted, st, e), rest);
  }

  lemma PushKeepsNormal(rooted: bool, st: seq<Element>, dots: nat, e: Element) returns (d: nat)
    requires Normal(rooted, st, dots) && '/' !in e
    ensures Normal(rooted, Push(rooted, st, e), d)
  {
    d := if e == ".." && !rooted && dots == |st| then dots + 1 else dots;
  }

  lemma {:induction false} SplitHasNoSlash(s: seq<char>)
    ensures NoSlashes(Split(s))
    decreases |s|
  {
    if s != [] {
      SplitHasNoSlash(s[1..]);
    }
  }

  lemma {:induction false} PushAllKeepsNormal(rooted: bool, st: seq<Element>, dots: nat, es: seq<Element>) returns (d: nat)
    requires Normal(rooted, st, dots) && NoSlashes(es)
    ensures Normal(rooted, PushAll(rooted, st, es), d)
    decreases |es|
  {
    if es == [] {
      d := dots;
    } else {
      var m := PushKeepsNormal(rooted, st, dots, es[0]);
      d := PushAllKeepsNormal(rooted, Push(rooted, st, es[0]), m, es[1..]);
    }
  }

  /** Whatever the name, its stack is in normal form. */
  lemma ElementsAreNormal(s: seq<char>) returns (d: nat)
    ensures Normal(Rooted(s), Elements(s), d)
  {
    SplitHasNoSlash(s);
    d := PushAllKeepsNormal(Rooted(s), [], 0, Split(s));
  }

  // ------------------------------------------------------------------
  // The clean form is a normal form

  lemma {:induction false} SplitSnoc(a: seq<char>, e: Element)
    requires '/' !in e
    ensures Split(a + ['/'] + e) == Split(a) + [e]
    decreases |a|
  {
    var t := a + ['/'] + e;
    if a == [] {
      assert t[1..] == e;
      SplitFirst(e, |e|);
      assert e[..|e|] == e && e[|e|..] == [];
    } else {
      assert t[1..] == a[1..] + ['/'] + e;
      SplitSnoc(a[1..], e);
    }
  }

  lemma {:induction false} SplitJoin(st: seq<Element>)
    requires st != [] && NoSlashes(st)
    ensures Split(Join(st)) == st
    decreases |st|
  {
    var n := |st| - 1;
    if n == 0 {
      SplitFirst(st[0], |st[0]|);
      assert st[0][..|st[0]|] == st[0] && st[0][|st[0]|..] == [];
    } else {
      SplitJoin(st[..n]);
      SplitSnoc(Join(st[..n]), st[n]);
      assert st == st[..n] + [st[n]];
    }
  }

  /** Pushing the elements of a normal stack one by one rebuilds it. */
  lemma {:induction false} PushAllNormal(rooted: bool, pre: seq<Element>, rest: seq<Element>, dots: nat)
    requires Normal(rooted, pre + rest, dots)
    ensures PushAll(rooted, pre, rest) == pre + rest
    decreases |rest|
  {
    if rest == [] {
      assert pre + rest == pre;
    } else {
      var st, e := pre + rest, rest[0];
      assert st[|pre|] == e && (pre != [] ==> st[|pre| - 1] == pre[|pre| - 1]);
      assert pre + [e] + rest[1..] == st;
      PushAllNormal(rooted, pre + [e], rest[1..], dots);
    }
  }

  lemma {:induction false} JoinStart(st: seq<Element>)
    requires st != [] && forall i :: 0 <= i < |st| ==> st[i] != []
    ensures Join(st) != [] && Join(st)[0] == st[0][0]
    decreases |st|
  {
    if |st| > 1 {
      JoinStart(st[..|st| - 1]);
    }
  }

  lemma ElementsOfRelative(st: seq<Element>, dots: nat)
    requires Normal(false, st, dots) && st != []
    ensures var r := Join(st); r != [] && !Rooted(r) && Elements(r) == st
  {
    JoinStart(st);
    SplitJoin(st);
    PushAllNormal(false, [], st, dots);
    assert [] + st == st && st[0][0] in st[0];
  }

  lemma ElementsOfRooted(st: seq<Element>)
    requires Normal(true, st, 0)
    ensures var r := ['/'] + Join(st); Rooted(r) && Elements(r) == st
  {
    var r := ['/'] + Join(st);
    assert r[1..] == Join(st);
    assert Split(r) == [[]] + Split(Join(st)) && Split(r)[1..] == Split(Join(st));
    assert Elements(r) == PushAll(true, [], Split(Join(st)));
    if st != [] {
      SplitJoin(st);
    } else {
      assert Split(Join(st)) == [[]] && Split(Join(st))[1..] == st;
    }
    PushAllNormal(true, [], st, 0);
    assert [] + st == st;
  }

  lemma ElementsOfDot()
    ensures !Rooted(".") && Elements(".") == []
  {
    SplitFirst(".", 1);
    assert "."[..1] == "." && "."[1..] == [];
    assert Split(".") == ["."];
  }

  /** A normal stack is read back from its rendering. */
  lemma ElementsOfRender(rooted: bool, st: seq<Element>, dots: nat)
    requires Normal(rooted, st, dots)
    ensures var r := Render(rooted, st); var c := if r == [] then "." else r;
            Rooted(c) == rooted && Elements(c) == st
  {
    assert [] + Join(st) == Join(st);
    if rooted {
      ElementsOfRooted(st);
    } else if st != [] {
      ElementsOfRelative(st, dots);
    } else {
      ElementsOfDot();
    }
  }

  /** Cleaning a clean name changes nothing. */
  lemma CleanTwice(s: seq<char>)
    ensures Clean(Clean(s)) == Clean(s)
    ensures Rooted(Clean(s)) == Rooted(s) && Elements(Clean(s)) == Elements(s)
  {
    var d := ElementsAreNormal(s);
    ElementsOfRender(Rooted(s), Elements(s), d);
  }

  // ------------------------------------------------------------------
  // The clean name leads to the same place

  /** One step from a directory, given as the path from the root to it. */
  function Go(dir: seq<Element>, e: Element): seq<Element> {
    if e == "" || e == "." then dir
    else if e == ".." then (if dir == [] then [] else dir[..|dir| - 1])
    else dir + [e]
  }

  function GoAll(dir: seq<Element>, es: seq<Element>): seq<Element>
    decreases |es|
  {
    if es == [] then dir else Go(GoAll(dir, es[..|es| - 1]), es[|es| - 1])
  }

  /** Where a name leads from the directory `cwd`. */
  function Resolve(cwd: seq<Element>, s: seq<char>): seq<Element> {
    GoAll(if Rooted(s) then [] else cwd, Split(s))
  }

  lemma GoPush(rooted: bool, dir: seq<Element>, st: seq<Element>, dots: nat, e: Element)
    requires Normal(rooted, st, dots) && (rooted ==> dir == [])
    ensures GoAll(dir, Push(rooted, st, e)) == Go(GoAll(dir, st), e)
  {
    assert (st + [e])[..|st|] == st;
    if st != [] && e == ".." && st[|st| - 1] != ".." {
      var init := st[..|st| - 1];
      assert GoAll(dir, st) == GoAll(dir, init) + [st[|st| - 1]];
    }
  }

  lemma {:induction false} GoPushAll(rooted: bool, dir: seq<Element>, es: seq<Element>) returns (dots: nat)
    requires (rooted ==> dir == []) && NoSlashes(es)
    ensures Normal(rooted, PushAll(rooted, [], es), dots)
    ensures GoAll(dir, PushAll(rooted, [], es)) == GoAll(dir, es)
    decreases |es|
  {
    if es == [] {
      dots := 0;
    } else {
      var init, e := es[..|es| - 1], es[|es| - 1];
      var d := GoPushAll(rooted, dir, init);
      PushAllSnoc(rooted, [], init, e);
      assert es == init + [e];
      GoPush(rooted, dir, PushAll(rooted, [], init), d, e);
      dots := PushKeepsNormal(rooted, PushAll(rooted, [], init), d, e);
    }
  }

  lemma {:induction false} PushAllSnoc(rooted: bool, st: seq<Element>, es: seq<Element>, e: Element)
    ensures PushAll(rooted, st, es + [e]) == Push(rooted, PushAll(rooted, st, es), e)
    decreases |es|
  {
    if es == [] {
      assert (es + [e])[1..] == [];
    } else {
      assert (es + [e])[1..] == es[1..] + [e];
      PushAllSnoc(rooted, Push(rooted, st, es[0]), es[1..], e);
    }
  }

  /** From every directory, the clean name leads where the name did. */
  lemma CleanLeadsToSame(s: seq<char>, cwd: seq<Element>)
    ensures Resolve(cwd, Clean(s)) == Resolve(cwd, s)
  {
    var dir := if Rooted(s) then [] else cwd;
    CleanTwice(s);
    SplitHasNoSlash(s);
    SplitHasNoSlash(Clean(s));
    var d1 := GoPushAll(Rooted(s), dir, Split(s));
    var d2 := GoPushAll(Rooted(s), dir, Split(Clean(s)));
  }

  // ------------------------------------------------------------------
  // In place

  /** The name in the buffer, up to its NUL. */
  ghost predicate Holds(name: array<char>, n: nat)
    reads name
  {
    n < name.Length && name[n] == '\0' && forall k :: 0 <= k < n ==> name[k] != '\0'
  }

  predicate Sep(c: char) { c == '/' || c == '\0' }

  lemma RenderSnoc(rooted: bool, st: seq<Element>, e: Element)
    ensures Render(rooted, st + [e]) == if st == [] then Render(rooted, []) + e else Render(rooted, st) + ['/'] + e
  {
    assert (st + [e])[..|st|] == st;
  }

  /** How much of a normal stack's rendering its first elements take. */
  lemma {:induction false} RenderGrows(rooted: bool, st: seq<Element>, dots: nat)
    requires dots <= |st| && forall i :: 0 <= i < |st| ==> st[i] != []
    ensures |Render(rooted, st[..dots])| <= |Render(rooted, st)|
    ensures dots < |st| ==> |Render(rooted, st[..dots])| < |Render(rooted, st)|
    decreases |st|
  {
    if dots < |st| {
      var n := |st| - 1;
      assert st == st[..n] + [st[n]] && st[..n][..dots] == st[..dots];
      RenderSnoc(rooted, st[..n], st[n]);
      RenderGrows(rooted, st[..n], dots);
    } else {
      assert st[..dots] == st;
    }
  }

  lemma LastPiece(r: seq<char>, pre: seq<char>, mid: seq<char>, e: Element)
    requires r == pre + mid + e && |mid| <= 1 && IsName(e)
    ensures |pre| < |r| && r[..|pre|] == pre
    ensures forall k :: |pre| < k < |r| ==> r[k] != '/'
    ensures mid == ['/'] ==> r[|pre|] == '/'
  {
    forall k | |pre| < k < |r|
      ensures r[k] != '/'
    {
      assert r[k] == e[k - |pre| - |mid|];
      assert e[k - |pre| - |mid|] in e;
    }
  }

  /** Where the last element of a rendering starts. */
  lemma LastElement(rooted: bool, st: seq<Element>, dots: nat)
    requires Normal(rooted, st, dots) && dots < |st|
    ensures var r, init := Render(rooted, st), Render(rooted, st[..|st| - 1]); var to := |init|;
            && to < |r| && r[..to] == init
            && (forall k :: to < k < |r| ==> r[k] != '/')
            && var dotdot := |Render(rooted, st[..dots])|;
               dotdot <= to && (dotdot < to ==> r[to] == '/')
  {
    hide Join;
    var m := |st| - 1;
    var init, e := st[..m], st[m];
    assert st == init + [e];
    assert init[..dots] == st[..dots];
    assert init[..dots] == [] ==> init == [] || dots < |init|;
    RenderSnoc(rooted, init, e);
    RenderGrows(rooted, init, dots);
    var mid := if init == [] then [] else ['/'];
    assert Render(rooted, init) + [] + e == Render(rooted, init) + e;
    hide Render;
    LastPiece(Render(rooted, st), Render(rooted, init), mid, e);
    if dots == m { assert init[..dots] == init; }
  }

  /** The written part of the name spells the stack; dotdot is behind its ".."s. */
  predicate Spells(w: seq<char>, dotdot: nat, rooted: bool, st: seq<Element>, dots: nat) {
    Normal(rooted, st, dots) && w == Render(rooted, st) && dotdot == |Render(rooted, st[..dots])|
  }

  lemma SpellsFacts(w: seq<char>, dotdot: nat, rooted: bool, st: seq<Element>, dots: nat)
    requires Spells(w, dotdot, rooted, st, dots)
    ensures (if rooted then 1 else 0) <= dotdot <= |w|
    ensures dots <= |st| && (dotdot < |w| <==> dots < |st|)
    ensures st == [] <==> |w| == if rooted then 1 else 0
    ensures Push(rooted, st, "..") == if dots < |st| then st[..|st| - 1] else if rooted then st else st + [".."]
  {
    RenderGrows(rooted, st, dots);
    RenderGrows(rooted, st, 0);
    if dots == |st| { assert st[..dots] == st; }
    if st == [] { assert st[..dots] == []; }
  }

  lemma SpellsStart(rooted: bool)
    ensures Spells(if rooted then ['/'] else [], if rooted then 1 else 0, rooted, [], 0)
  {
  }

  lemma SpellsPop(w: seq<char>, dotdot: nat, rooted: bool, st: seq<Element>, dots: nat, to: nat)
    requires Spells(w, dotdot, rooted, st, dots) && dots < |st| && to == |Render(rooted, st[..|st| - 1])|
    ensures to < |w| && Spells(w[..to], dotdot, rooted, st[..|st| - 1], dots)
    ensures dotdot <= to && (dotdot < to ==> w[to] == '/') && forall k :: to < k < |w| ==> w[k] != '/'
  {
    LastElement(rooted, st, dots);
    assert st[..|st| - 1][..dots] == st[..dots];
  }

  lemma SpellsAdd(w: seq<char>, dotdot: nat, rooted: bool, st: seq<Element>, dots: nat, e: Element)
    requires Spells(w, dotdot, rooted, st, dots)
    ensures var v := if st == [] then w + e else w + ['/'] + e;
            && (IsName(e) ==> Spells(v, dotdot, rooted, st + [e], dots))
            && (e == ".." && dots == |st| && !rooted ==> Spells(v, |v|, rooted, st + [e], dots + 1))
  {
    RenderSnoc(rooted, st, e);
    hide Render, Join, IsName;
    assert (st + [e])[..dots] == st[..dots];
    if dots == |st| { assert (st + [e])[..dots + 1] == st + [e]; }
  }

  /** Step back over the last element written, not beyond dotdot. */
  method Backtrack(name: array<char>, q0: nat, dotdot: nat, ghost rooted: bool, ghost st: seq<Element>, ghost dots: nat)
      returns (q: nat)
    requires q0 <= name.Length && Spells(name[..q0], dotdot, rooted, st, dots) && dots < |st|
    ensures q < q0 && Spells(name[..q], dotdot, rooted, st[..|st| - 1], dots)
  {
    hide Spells;
    ghost var to := |Render(rooted, st[..|st| - 1])|;
    SpellsPop(name[..q0], dotdot, rooted, st, dots, to);
    assert forall k :: 0 <= k < q0 ==> name[k] == name[..q0][k];
    q := q0 - 1;
    while q > dotdot && name[q] != '/'
      invariant to <= q < q0
    {
      q := q - 1;
    }
    assert name[..q] == name[..q0][..to];
  }

  /** What a ".." at p does to the part written; p2 is behind it. */
  method DotDot(name: array<char>, p2: nat, q0: nat, dotdot0: nat, rooted: bool, ghost st: seq<Element>, ghost dots: nat)
      returns (q: nat, dotdot: nat, ghost d: nat)
    requires q0 <= p2 <= name.Length && Spells(name[..q0], dotdot0, rooted, st, dots)
    requires (if q0 == 0 then 2 else q0 + 3) <= p2 || rooted
    modifies name
    ensures q <= p2 && Spells(name[..q], dotdot, rooted, Push(rooted, st, ".."), d)
    ensures forall k :: p2 <= k < name.Length ==> name[k] == old(name[k])
  {
    hide Spells, Push;
    SpellsFacts(name[..q0], dotdot0, rooted, st, dots);
    q, dotdot, d := q0, dotdot0, dots;
    if q > dotdot {
      q := Backtrack(name, q, dotdot, rooted, st, dots);
    } else if !rooted {
      ghost var w := name[..q0];
      SpellsAdd(w, dotdot, rooted, st, dots, "..");
      if q != 0 {
        name[q] := '/';
        q := q + 1;
      }
      name[q], name[q + 1] := '.', '.';
      q := q + 2;
      dotdot, d := q, dots + 1;
      assert name[..q] == if st == [] then w + ".." else w + ['/'] + "..";
    }
  }

  /** A proper element at p0 is copied behind the part written. */
  method AddName(name: array<char>, p0: nat, q0: nat, ghost s: seq<char>, ghost dotdot: nat,
                 rooted: bool, ghost st: seq<Element>, ghost dots: nat) returns (p: nat, q: nat)
    requires q0 <= p0 < |s| < name.Length && name[|s|] == '\0' && forall k :: p0 <= k < |s| ==> name[k] == s[k]
    requires Spells(name[..q0], dotdot, rooted, st, dots)
    requires q0 == p0 ==> q0 == if rooted then 1 else 0
    requires !Sep(name[p0]) && !(name[p0] == '.' && Sep(name[p0 + 1]))
    requires !(name[p0] == '.' && name[p0 + 1] == '.' && Sep(name[p0 + 2]))
    modifies name
    ensures p0 < p <= |s| && q <= p && Sep(name[p])
    ensures '/' !in s[p0..p] && Push(rooted, st, s[p0..p]) == st + [s[p0..p]]
    ensures Spells(name[..q], dotdot, rooted, st + [s[p0..p]], dots)
    ensures forall k :: p <= k < name.Length ==> name[k] == old(name[k])
  {
    hide Spells;
    ghost var w := name[..q0];
    SpellsFacts(w, dotdot, rooted, st, dots);
    q := q0;
    if q != if rooted then 1 else 0 {
      name[q] := '/';
      q := q + 1;
    }
    ghost var q1 := q;
    assert name[..q1] == if st == [] then w else w + ['/'];
    p, q := CopyElement(name, p0, q, s);
    ghost var e := s[p0..p];
    NameIs(s, p0, p);
    SpellsAdd(w, dotdot, rooted, st, dots, e);
    assert name[..q] == name[..q1] + e;
    assert name[..q] == if st == [] then w + e else w + ['/'] + e;
  }

  lemma NameIs(s: seq<char>, p0: nat, p: nat)
    requires p0 < p <= |s| && forall k :: p0 <= k < p ==> !Sep(s[k])
    requires !(s[p0] == '.' && p == p0 + 1) && !(s[p0] == '.' && p == p0 + 2 && s[p0 + 1] == '.')
    ensures IsName(s[p0..p])
  {
    var e := s[p0..p];
    assert forall k :: 0 <= k < |e| ==> e[k] == s[p0 + k];
  }

  /** Copy an element down, with the separator behind it. */
  method CopyElement(name: array<char>, p0: nat, q0: nat, ghost s: seq<char>) returns (p: nat, q: nat)
    requires q0 <= p0 < |s| < name.Length && name[|s|] == '\0' && forall k :: p0 <= k < |s| ==> name[k] == s[k]
    requires !Sep(name[p0])
    modifies name
    ensures p0 < p <= |s| && q - q0 == p - p0 && Sep(name[p]) && forall k :: p0 <= k < p ==> !Sep(s[k])
    ensures name[..q0] == old(name[..q0]) && name[q0..q] == s[p0..p]
    ensures forall k :: p <= k < name.Length ==> name[k] == old(name[k])
  {
    p, q := p0, q0;
    name[q] := name[p];
    while name[q] != '/' && name[q] != '\0'
      invariant p0 <= p <= |s| && q - q0 == p - p0
      invariant name[q] == old(name[p])
      invariant p == p0 ==> !Sep(name[q])
      invariant forall k :: 0 <= k < q0 ==> name[k] == old(name[k])
      invariant forall k :: p <= k < name.Length ==> name[k] == old(name[k])
      invariant forall k :: p0 <= k < p ==> !Sep(s[k])
      invariant name[q0..q] == s[p0..p]
      decreases |s| - p
    {
      p, q := p + 1, q + 1;
      name[q] := name[p];
    }
  }

  /** `cleanname`.  The buffer needs two bytes, for the "." an empty name
      becomes; nothing else is written beyond what has been read. */
  method CleanName(name: array<char>, ghost n: nat)
    requires 2 <= name.Length && Holds(name, n)
    modifies name
    ensures var c := Clean(old(name[..n]));
            |c| < name.Length && name[..|c| + 1] == c + ['\0']
  {
    hide Normal, Push, PushAll, Split, Render, Elements, Clean, Going;
    ghost var s := name[..n];
    var rooted := name[0] == '/';
    var p: nat := if rooted then 1 else 0;
    var q: nat, dotdot: nat := p, p;
    ghost var st: seq<Element>, dots := [], 0;
    GoingStarts(name, s);
    while name[p] != '\0'
      invariant p <= n && Going(name, s, p, q, dotdot, rooted, st, dots)
      decreases n - p
    {
      GoingReads(name, s, p, q, dotdot, rooted, st, dots);
      if name[p] == '/' {
        SkipKeeps(name, s, p, p + 1, q, dotdot, rooted, st, dots);
        p := p + 1;
      } else if name[p] == '.' && Sep(name[p + 1]) {
        SkipKeeps(name, s, p, p + 1, q, dotdot, rooted, st, dots);
        p := p + 1;
      } else if name[p] == '.' && name[p + 1] == '.' && Sep(name[p + 2]) {
        q, dotdot, dots := DotDotStep(name, s, p, q, dotdot, rooted, st, dots);
        p := p + 2;
        st := Push(rooted, st, "..");
      } else {
        p, q, st := NameStep(name, s, p, q, dotdot, rooted, st, dots);
      }
    }
    Finish(name, s, p, q, dotdot, rooted, st, dots);
    if q == 0 {
      name[0] := '.';
      q := 1;
    }
    name[q] := '\0';
  }

  /** The state of the loop: the stack of the elements read so far is spelt
      before q, and the elements from p on complete it. */
  ghost predicate Going(name: array<char>, s: seq<char>, p: nat, q: nat, dotdot: nat,
                        rooted: bool, st: seq<Element>, dots: nat)
    reads name
  {
    && rooted == Rooted(s) && q <= p <= |s| < name.Length
    && Unread(name, s, p)
    && (q == p && q != (if rooted then 1 else 0) ==> Sep(name[p]))
    && Spells(name[..q], dotdot, rooted, st, dots)
    && PushAll(rooted, st, Split(s[p..])) == Elements(s)
  }

  lemma GoingStarts(name: array<char>, s: seq<char>)
    requires Holds(name, |s|) && s == name[..|s|]
    ensures var rooted := name[0] == '/'; var base := if rooted then 1 else 0;
            base <= |s| && Going(name, s, base, base, base, rooted, [], 0)
  {
    var rooted := name[0] == '/';
    Begin(s);
    SpellsStart(rooted);
    assert s != [] ==> s[0] == name[0];
    assert rooted ==> name[..1] == ['/'];
  }

  lemma GoingReads(name: array<char>, s: seq<char>, p: nat, q: nat, dotdot: nat,
                   rooted: bool, st: seq<Element>, dots: nat)
    requires Going(name, s, p, q, dotdot, rooted, st, dots) && name[p] != '\0'
    ensures p < |s| && name[p] == s[p] && p + 1 < name.Length && (name[p + 1] != '\0' ==> p + 2 < name.Length)
    ensures forall k :: p <= k < |s| ==> name[k] == s[k] != '\0'
    ensures name[|s|] == '\0'
  {
    hide Spells;
  }

  /** An empty element or a "." is passed over. */
  lemma SkipKeeps(name: array<char>, s: seq<char>, p: nat, p': nat, q: nat, dotdot: nat,
                  rooted: bool, st: seq<Element>, dots: nat)
    requires Going(name, s, p, q, dotdot, rooted, st, dots) && p < |s| && p' == p + 1
    requires name[p] == '/' || (name[p] == '.' && Sep(name[p + 1]))
    ensures Going(name, s, p', q, dotdot, rooted, st, dots)
  {
    hide Spells;
    if name[p] == '/' {
      Separator(rooted, st, s, p);
    } else {
      Next(rooted, st, s, p, p + 1);
      PushDot(rooted, st, s, p);
    }
  }

  method DotDotStep(name: array<char>, ghost s: seq<char>, p: nat, q0: nat, dotdot0: nat,
                    rooted: bool, ghost st: seq<Element>, ghost dots: nat) returns (q: nat, dotdot: nat, ghost d: nat)
    requires Going(name, s, p, q0, dotdot0, rooted, st, dots) && p + 2 <= |s|
    requires name[p] == name[p + 1] == '.' && Sep(name[p + 2])
    modifies name
    ensures Going(name, s, p + 2, q, dotdot, rooted, Push(rooted, st, ".."), d)
  {
    hide Spells, Push, PushAll;
    SpellsFacts(name[..q0], dotdot0, rooted, st, dots);
    assert s[p..p + 2] == "..";
    Next(rooted, st, s, p, p + 2);
    q, dotdot, d := DotDot(name, p + 2, q0, dotdot0, rooted, st, dots);
  }

  method NameStep(name: array<char>, ghost s: seq<char>, p0: nat, q0: nat, ghost dotdot: nat,
                  rooted: bool, ghost st0: seq<Element>, ghost dots: nat) returns (p: nat, q: nat, ghost st: seq<Element>)
    requires Going(name, s, p0, q0, dotdot, rooted, st0, dots) && p0 < |s|
    requires !Sep(name[p0]) && !(name[p0] == '.' && Sep(name[p0 + 1]))
    requires !(name[p0] == '.' && name[p0 + 1] == '.' && Sep(name[p0 + 2]))
    modifies name
    ensures p0 < p <= |s| && Going(name, s, p, q, dotdot, rooted, st, dots)
  {
    hide Spells, Push, PushAll;
    p, q := AddName(name, p0, q0, s, dotdot, rooted, st0, dots);
    Next(rooted, st0, s, p0, p);
    st := st0 + [s[p0..p]];
  }

  lemma PushDot(rooted: bool, st: seq<Element>, s: seq<char>, p: nat)
    requires p < |s| && s[p] == '.'
    ensures Push(rooted, st, s[p..p + 1]) == st
  {
    assert s[p..p + 1] == ".";
  }

  /** At the end of the name the part written is the clean name, or empty. */
  lemma Finish(name: array<char>, s: seq<char>, p: nat, q: nat, dotdot: nat,
               rooted: bool, st: seq<Element>, dots: nat)
    requires Going(name, s, p, q, dotdot, rooted, st, dots) && name[p] == '\0'
    ensures q < name.Length && Clean(s) == if q == 0 then "." else name[..q]
  {
    assert p == |s|;
    var es := Split(s[p..]);
    assert s[p..] == [] && es == [[]] && es[1..] == [];
    assert Push(rooted, st, es[0]) == st && PushAll(rooted, st, es) == st;
  }

  /** From p on the buffer is still as it was. */
  ghost predicate Unread(name: array<char>, s: seq<char>, p: nat)
    reads name
  {
    |s| < name.Length && name[|s|] == '\0' && forall k :: p <= k < |s| ==> name[k] == s[k] && s[k] != '\0'
  }

  lemma Begin(s: seq<char>)
    ensures var base := if Rooted(s) then 1 else 0;
            PushAll(Rooted(s), [], Split(s[base..])) == Elements(s)
  {
    if !Rooted(s) { assert s[0..] == s; }
  }

  lemma Separator(rooted: bool, st: seq<Element>, s: seq<char>, p: nat)
    requires p < |s| && s[p] == '/'
    ensures PushAll(rooted, st, Split(s[p + 1..])) == PushAll(rooted, st, Split(s[p..]))
  {
    assert s[p..][1..] == s[p + 1..];
    assert Split(s[p..])[1..] == Split(s[p + 1..]);
  }

  /** The element that starts at p ends at k. */
  lemma Next(rooted: bool, st: seq<Element>, s: seq<char>, p: nat, k: nat)
    requires p <= k <= |s| && '/' !in s[p..k] && (k < |s| ==> s[k] == '/')
    ensures PushAll(rooted, Push(rooted, st, s[p..k]), Split(s[k..])) == PushAll(rooted, st, Split(s[p..]))
  {
    assert s[p..][..k - p] == s[p..k] && s[p..][k - p..] == s[k..];
    Advance(rooted, st, s[p..], k - p);
  }
}
