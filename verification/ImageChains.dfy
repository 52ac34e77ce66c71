/**
 The encoder's dictionary (libdraw/writeimage.c): hash chains of past
 positions, doubly linked through a ring of NMEM nodes that is recycled
 oldest first.  `hash` and `chain` are arrays of one struct type in C, so a
 pointer into either is modelled as an index into one table: 0..NHASH-1 are
 the chain heads, NHASH.. the ring, NIL the null pointer.
 */
module ImageChains {
  import opened Basics
  import opened CompressedImage

  const HSHIFT: nat := 3
  const NHASH: nat := 512  // 1 << (HSHIFT * NMATCH)
  const NIL: int := -1

  // ------------------------------------------------------------------
  // The hash

  function Fold(h: bv16, c: bv16): bv16 {
    ((h << HSHIFT) ^ c) & 511
  }

  function HUpdate(h: bv16, c: byte): (r: bv16)
    ensures 0 <= r as int < NHASH
  {
    FoldBound(h, c as bv16);
    Fold(h, c as bv16)
  }

  /** The hash a position is filed under: its NMATCH bytes, folded in order. */
  function Hash3(a: byte, b: byte, c: byte): bv16 {
    HUpdate(HUpdate(HUpdate(0, a), b), c)
  }

  lemma FoldBound(h: bv16, c: bv16)
    ensures Fold(h, c) as int < NHASH
  {
    assert Fold(h, c) < 512;
  }

  lemma FoldForgets(h: bv16, a: bv16, b: bv16, c: bv16)
    ensures Fold(Fold(Fold(h, a), b), c) == Fold(Fold(Fold(0, a), b), c)
  {
  }

  /** A byte that is NMATCH updates old has left the hash entirely, so the
      running hash is a function of the next NMATCH bytes and nothing else. */
  lemma RunningHash(h: bv16, a: byte, b: byte, c: byte, d: byte)
    ensures HUpdate(HUpdate(HUpdate(h, a), b), c) == Hash3(a, b, c)
    ensures HUpdate(Hash3(a, b, c), d) == Hash3(b, c, d)
  {
    FoldForgets(h, a as bv16, b as bv16, c as bv16);
    FoldForgets(Fold(0, a as bv16), b as bv16, c as bv16, d as bv16);
  }

  // ------------------------------------------------------------------
  // What the chains stand for

  // Positions are counted from the start of the block; `hs[y]` is the hash
  // under which position y was filed, and the window is the last NMEM of them.

  function Oldest(count: nat): (lo: nat)
    ensures lo <= count
  {
    if count <= NMEM then 0 else count - NMEM
  }

  /** The newest position of [lo, x) filed under h, or NIL. */
  function Older(hs: seq<nat>, lo: nat, x: nat, h: nat): (r: int)
    requires x <= |hs|
    ensures r == NIL || (lo <= r < x && hs[r] == h)
    ensures forall y :: lo <= y < x && r < y ==> hs[y] != h
  {
    if x <= lo then NIL else if hs[x - 1] == h then x - 1 else Older(hs, lo, x - 1, h)
  }

  /** The oldest position of [x, |hs|) filed under h, or NIL. */
  function Newer(hs: seq<nat>, x: nat, h: nat): (r: int)
    ensures r == NIL || (x <= r < |hs| && hs[r] == h)
    ensures forall y :: x <= y < |hs| && (r == NIL || y < r) ==> hs[y] != h
    decreases |hs| - x
  {
    if x >= |hs| then NIL else if hs[x] == h then x else Newer(hs, x + 1, h)
  }

  /** The ring node that holds a position. */
  function Node(y: int): (r: int)
    requires NIL <= y
    ensures y == NIL ==> r == NIL
    ensures y != NIL ==> NHASH <= r < NHASH + NMEM
  {
    if y == NIL then NIL else NHASH + y % NMEM
  }

  lemma NodesDiffer(x: nat, y: nat)
    requires x < y < x + NMEM
    ensures Node(x) != Node(y)
  {
  }

  /** The positions filed under h, newest first. */
  function Chain(hs: seq<nat>, base: nat, lo: nat, x: nat, h: nat): seq<nat>
    requires x <= |hs|
  {
    if x <= lo then []
    else if hs[x - 1] == h then [base + x - 1] + Chain(hs, base, lo, x - 1, h)
    else Chain(hs, base, lo, x - 1, h)
  }

  lemma {:induction false} ChainIsSound(hs: seq<nat>, base: nat, lo: nat, x: nat, h: nat, k: nat)
    requires x <= |hs| && k < |Chain(hs, base, lo, x, h)|
    ensures var r := Chain(hs, base, lo, x, h);
            && base + lo <= r[k] < base + x && hs[r[k] - base] == h
            && (k + 1 < |r| ==> r[k + 1] < r[k])
  {
    if hs[x - 1] != h {
      ChainIsSound(hs, base, lo, x - 1, h, k);
    } else if k > 0 {
      ChainIsSound(hs, base, lo, x - 1, h, k - 1);
    } else if 1 < |Chain(hs, base, lo, x, h)| {
      ChainIsSound(hs, base, lo, x - 1, h, 0);
    }
  }

  lemma {:induction false} ChainIsComplete(hs: seq<nat>, base: nat, lo: nat, x: nat, h: nat, y: nat)
    requires lo <= y < x <= |hs| && hs[y] == h
    ensures base + y in Chain(hs, base, lo, x, h)
  {
    if y == x - 1 {
      assert Chain(hs, base, lo, x, h)[0] == base + y;
    } else {
      ChainIsComplete(hs, base, lo, x - 1, h, y);
    }
  }

  /** The table holds exactly the positions [lo, |hs|), linked newest first
      through `next` and back through `prev`. */
  ghost predicate Linked(next: seq<int>, prev: seq<int>, s: seq<int>, base: nat, hs: seq<nat>, lo: nat) {
    && |next| == |prev| == |s| == NHASH + NMEM
    && lo <= |hs| <= lo + NMEM
    && (forall y :: 0 <= y < |hs| ==> hs[y] < NHASH)
    && (forall h: nat :: h < NHASH ==> next[h] == Node(Older(hs, lo, |hs|, h)))
    && (forall y :: lo <= y < |hs| ==> LinkedIn(next, prev, s, base, hs, lo, y))
  }

  /** Position y sits in its node, between its neighbours on the chain. */
  ghost predicate LinkedIn(next: seq<int>, prev: seq<int>, s: seq<int>, base: nat, hs: seq<nat>, lo: nat, y: nat)
    requires |next| == |prev| == |s| == NHASH + NMEM && y < |hs|
  {
    var n := Node(y);
    && s[n] == base + y
    && next[n] == Node(Older(hs, lo, y, hs[y]))
    && prev[n] == Back(hs, y)
  }

  /** Where y's node is pointed to from: the next newer node, or the head. */
  function Back(hs: seq<nat>, y: nat): int
    requires y < |hs|
  {
    var z := Newer(hs, y + 1, hs[y]); if z == NIL then hs[y] else Node(z)
  }

  lemma HeadOf(next: seq<int>, prev: seq<int>, s: seq<int>, base: nat, hs: seq<nat>, lo: nat, h: nat)
    requires Linked(next, prev, s, base, hs, lo) && h < NHASH
    ensures |next| == NHASH + NMEM && next[h] == Node(Older(hs, lo, |hs|, h))
  {
  }

  lemma HopFrom(next: seq<int>, prev: seq<int>, s: seq<int>, base: nat, hs: seq<nat>, lo: nat, y: nat)
    requires Linked(next, prev, s, base, hs, lo) && lo <= y < |hs|
    ensures |next| == |s| == NHASH + NMEM
    ensures s[Node(y)] == base + y && next[Node(y)] == Node(Older(hs, lo, y, hs[y]))
  {
    assert LinkedIn(next, prev, s, base, hs, lo, y);
  }

  /** The strings met on the way along `next` from a node. */
  function Walk(next: seq<int>, s: seq<int>, from: int, fuel: nat): seq<int>
    decreases fuel
  {
    if fuel == 0 || !(0 <= from < |next| && from < |s|) then []
    else [s[from]] + Walk(next, s, next[from], fuel - 1)
  }

  /** One link of the walk, one position of the window. */
  lemma Steps(next: seq<int>, s: seq<int>, base: nat, hs: seq<nat>, lo: nat, x: nat, h: nat, from: int, fuel: nat)
    requires x <= |hs|
    ensures Older(hs, lo, x, h) == if x <= lo then NIL else if hs[x - 1] == h then x - 1 else Older(hs, lo, x - 1, h)
    ensures Chain(hs, base, lo, x, h) ==
            if x <= lo then [] else (if hs[x - 1] == h then [base + x - 1] else []) + Chain(hs, base, lo, x - 1, h)
    ensures Walk(next, s, from, fuel) ==
            if fuel == 0 || !(0 <= from < |next| && from < |s|) then [] else [s[from]] + Walk(next, s, next[from], fuel - 1)
  {
  }

  lemma {:induction false} WalkIsChain(next: seq<int>, prev: seq<int>, s: seq<int>, base: nat, hs: seq<nat>, lo: nat,
                                       x: nat, h: nat, fuel: nat)
    requires Linked(next, prev, s, base, hs, lo) && x <= |hs| && x <= lo + fuel
    ensures Walk(next, s, Node(Older(hs, lo, x, h)), fuel) == Chain(hs, base, lo, x, h)
    decreases x
  {
    hide Linked, LinkedIn, Older, Chain, Walk, Node;
    Steps(next, s, base, hs, lo, x, h, Node(Older(hs, lo, x, h)), fuel);
    if lo < x {
      if hs[x - 1] == h {
        HopFrom(next, prev, s, base, hs, lo, x - 1);
        WalkIsChain(next, prev, s, base, hs, lo, x - 1, h, fuel - 1);
      } else {
        WalkIsChain(next, prev, s, base, hs, lo, x - 1, h, fuel);
      }
    }
  }

  /** Each chain lists exactly the window's positions of its hash, newest
      first: within NMEM links it ends, and the window misses none. */
  lemma HeadListsWindow(next: seq<int>, prev: seq<int>, s: seq<int>, base: nat, hs: seq<nat>, lo: nat, h: nat)
    requires Linked(next, prev, s, base, hs, lo) && h < NHASH
    ensures Walk(next, s, next[h], NMEM) == Chain(hs, base, lo, |hs|, h)
  {
    HeadOf(next, prev, s, base, hs, lo, h);
    WalkIsChain(next, prev, s, base, hs, lo, |hs|, h, NMEM);
  }

  lemma OlderWithoutLast(hs: seq<nat>, lo: nat, x: nat, h: nat)
    requires lo < x <= |hs|
    ensures Older(hs, lo + 1, x, h) == (if Older(hs, lo, x, h) == lo then NIL else Older(hs, lo, x, h))
  {
  }

  /** Cutting the chain behind the recycled node's predecessor removes that
      one position and nothing else. */
  lemma Recycle(next: seq<int>, prev: seq<int>, s: seq<int>, base: nat, hs: seq<nat>, lo: nat)
    requires Linked(next, prev, s, base, hs, lo) && lo < |hs|
    ensures 0 <= prev[Node(lo)] < |next|
    ensures Linked(next[prev[Node(lo)] := NIL], prev, s, base, hs, lo + 1)
  {
    var at, lo' := prev[Node(lo)], lo + 1;
    assert LinkedIn(next, prev, s, base, hs, lo, lo);
    assert at == Back(hs, lo);
    var next' := next[at := NIL];
    forall h: nat | h < NHASH
      ensures next'[h] == Node(Older(hs, lo + 1, |hs|, h))
    {
      OlderWithoutLast(hs, lo, |hs|, h);
    }
    forall y | lo' <= y < |hs|
      ensures LinkedIn(next', prev, s, base, hs, lo', y)
    {
      assert LinkedIn(next, prev, s, base, hs, lo, y);
      OlderWithoutLast(hs, lo, y, hs[y]);
      var z := Newer(hs, lo + 1, hs[lo]);
      if z != NIL && z != y {
        if z < y { NodesDiffer(z, y); } else { NodesDiffer(y, z); }
      }
    }
  }

  lemma OlderExtended(hs: seq<nat>, h: nat, lo: nat, x: nat, g: nat)
    requires x <= |hs|
    ensures Older(hs + [h], lo, x, g) == Older(hs, lo, x, g)
  {
  }

  lemma NewerExtended(hs: seq<nat>, h: nat, x: nat, g: nat)
    requires x <= |hs|
    ensures Newer(hs + [h], x, g) ==
            if Newer(hs, x, g) != NIL then Newer(hs, x, g) else if g == h then |hs| else NIL
    decreases |hs| - x
  {
    if x < |hs| && hs[x] != g {
      NewerExtended(hs, h, x + 1, g);
    }
  }

  /** Ring nodes that have never been filled point back nowhere. */
  ghost predicate Unused(prev: seq<int>, count: nat)
    requires |prev| == NHASH + NMEM
  {
    forall k :: NHASH + count <= k < NHASH + NMEM ==> prev[k] == NIL
  }

  /** What filing position |hs| under h writes to the table. */
  ghost predicate Pushed(next: seq<int>, prev: seq<int>, s: seq<int>, base: nat, hs: seq<nat>, h: nat,
                         next': seq<int>, prev': seq<int>, s': seq<int>)
    requires |next| == |prev| == |s| == NHASH + NMEM && h < NHASH
    requires next[h] == NIL || NHASH <= next[h] < NHASH + NMEM
  {
    var n := Node(|hs|);
    && s' == s[n := base + |hs|]
    && next' == next[n := next[h]][h := n]
    && prev' == if next[h] != NIL then prev[n := h][next[h] := n] else prev[n := h]
  }

  lemma PushKeeps(next: seq<int>, prev: seq<int>, s: seq<int>, base: nat, hs: seq<nat>, lo: nat, h: nat,
                  next': seq<int>, prev': seq<int>, s': seq<int>, y: nat)
    requires Linked(next, prev, s, base, hs, lo) && |hs| < lo + NMEM && h < NHASH
    requires Pushed(next, prev, s, base, hs, h, next', prev', s')
    requires lo <= y < |hs|
    ensures LinkedIn(next', prev', s', base, hs + [h], lo, y)
  {
    var first := Older(hs, lo, |hs|, h);
    assert LinkedIn(next, prev, s, base, hs, lo, y);
    OlderExtended(hs, h, lo, y, hs[y]);
    NewerExtended(hs, h, y + 1, hs[y]);
    NodesDiffer(y, |hs|);
    if first != NIL && first != y {
      if first < y { NodesDiffer(first, y); } else { NodesDiffer(y, first); }
    }
    assert first == y <==> hs[y] == h && Newer(hs, y + 1, h) == NIL;
  }

  lemma PushAdds(next: seq<int>, prev: seq<int>, s: seq<int>, base: nat, hs: seq<nat>, lo: nat, h: nat,
                 next': seq<int>, prev': seq<int>, s': seq<int>)
    requires Linked(next, prev, s, base, hs, lo) && |hs| < lo + NMEM && h < NHASH
    requires Pushed(next, prev, s, base, hs, h, next', prev', s')
    ensures LinkedIn(next', prev', s', base, hs + [h], lo, |hs|)
  {
    var first := Older(hs, lo, |hs|, h);
    OlderExtended(hs, h, lo, |hs|, h);
    if first != NIL {
      NodesDiffer(first, |hs|);
    }
  }

  /** Filing a new position at the front of its chain. */
  lemma Push(next: seq<int>, prev: seq<int>, s: seq<int>, base: nat, hs: seq<nat>, lo: nat, h: nat,
             next': seq<int>, prev': seq<int>, s': seq<int>)
    requires Linked(next, prev, s, base, hs, lo) && |hs| < lo + NMEM && h < NHASH
    requires Pushed(next, prev, s, base, hs, h, next', prev', s') && Unused(prev, |hs|)
    ensures Linked(next', prev', s', base, hs + [h], lo) && Unused(prev', |hs| + 1)
  {
    hide LinkedIn;
    PushHeads(next, prev, s, base, hs, lo, h, next', prev', s');
    forall y | lo <= y < |hs| + 1
      ensures LinkedIn(next', prev', s', base, hs + [h], lo, y)
    {
      if y < |hs| {
        PushKeeps(next, prev, s, base, hs, lo, h, next', prev', s', y);
      } else {
        PushAdds(next, prev, s, base, hs, lo, h, next', prev', s');
      }
    }
  }

  lemma PushHeads(next: seq<int>, prev: seq<int>, s: seq<int>, base: nat, hs: seq<nat>, lo: nat, h: nat,
                  next': seq<int>, prev': seq<int>, s': seq<int>)
    requires Linked(next, prev, s, base, hs, lo) && |hs| < lo + NMEM && h < NHASH
    requires Pushed(next, prev, s, base, hs, h, next', prev', s')
    ensures |next'| == NHASH + NMEM
    ensures forall g: nat :: g < NHASH ==> next'[g] == Node(Older(hs + [h], lo, |hs| + 1, g))
  {
    hide LinkedIn;
    forall g: nat | g < NHASH
      ensures next'[g] == Node(Older(hs + [h], lo, |hs| + 1, g))
    {
      OlderExtended(hs, h, lo, |hs|, g);
    }
  }

  lemma NextNode(count: nat)
    ensures Node(count + 1) == if Node(count) + 1 == NHASH + NMEM then NHASH else Node(count) + 1
  {
  }

  class HashChains {
    const next: array<int>
    const prev: array<int>
    const s: array<int>
    var cp: nat           // next ring node to be recycled
    ghost var base: nat   // start of the block
    ghost var hs: seq<nat>

    ghost predicate Shape() {
      && next.Length == prev.Length == s.Length == NHASH + NMEM
      && next != prev && next != s && prev != s
    }

    ghost predicate Valid()
      reads this, next, prev, s
    {
      && Shape()
      && cp == Node(|hs|)
      && Linked(next[..], prev[..], s[..], base, hs, Oldest(|hs|))
      && Unused(prev[..], |hs|)
    }

    constructor ()
      ensures Shape() && fresh(next) && fresh(prev) && fresh(s)
    {
      next := new int[NHASH + NMEM];
      prev := new int[NHASH + NMEM];
      s := new int[NHASH + NMEM];
    }

    /** The two memsets at a block start. */
    method Clear(ghost start: nat)
      requires Shape()
      modifies this, next, prev, s
      ensures Valid() && hs == [] && base == start
    {
      for i := 0 to NHASH + NMEM
        invariant forall j :: 0 <= j < i ==> next[j] == NIL && prev[j] == NIL
      {
        next[i], prev[i] := NIL, NIL;
      }
      cp := NHASH;
      base, hs := start, [];
    }

    /** The node about to be reused leaves its chain. */
    method CutOldest()
      requires Valid()
      modifies next
      ensures cp == Node(|hs|) && Unused(prev[..], |hs|)
      ensures Linked(next[..], prev[..], s[..], base, hs, Oldest(|hs| + 1))
    {
      ghost var nx := next[..];
      if |hs| >= NMEM {
        assert Node(Oldest(|hs|)) == cp;
        Recycle(nx, prev[..], s[..], base, hs, Oldest(|hs|));
      }
      if prev[cp] != NIL {
        next[prev[cp]] := NIL;
        assert next[..] == nx[prev[cp] := NIL];
      }
    }

    /** The node at `cp` joins the front of chain h. */
    method Link(h: nat, p: nat)
      requires Shape() && cp == Node(|hs|) && Unused(prev[..], |hs|)
      requires h < NHASH && p == base + |hs|
      requires Linked(next[..], prev[..], s[..], base, hs, Oldest(|hs| + 1))
      modifies next, prev, s
      ensures Linked(next[..], prev[..], s[..], base, hs + [h], Oldest(|hs| + 1))
      ensures Unused(prev[..], |hs| + 1)
    {
      ghost var nx, pv, ss := next[..], prev[..], s[..];
      assert nx[h] == Node(Older(hs, Oldest(|hs| + 1), |hs|, h));
      next[cp] := next[h];
      prev[cp] := h;
      if next[cp] != NIL {
        prev[next[cp]] := cp;
      }
      next[prev[cp]] := cp;
      s[cp] := p;
      assert next[..] == nx[cp := nx[h]][h := cp];
      assert prev[..] == if nx[h] != NIL then pv[cp := h][nx[h] := cp] else pv[cp := h];
      Push(nx, pv, ss, base, hs, Oldest(|hs| + 1), h, next[..], prev[..], s[..]);
    }

    /** File position p under hash h, recycling the oldest node. */
    method Insert(h: nat, p: nat)
      requires Valid() && h < NHASH && p == base + |hs|
      modifies this, next, prev, s
      ensures Valid() && base == old(base) && hs == old(hs) + [h]
    {
      CutOldest();
      Link(h, p);
      NextNode(|hs|);
      hs := hs + [h];
      cp := cp + 1;
      if cp == NHASH + NMEM {
        cp := NHASH;
      }
    }
  }
}
