/**
 Programs that meet on channels: isend and irecv (libinterp/xec.c), the alt
 statement as a whole (libinterp/alt.c), and killprog (emu/port/dis.c).  A
 program that waits in an alt waits on many queues, and whoever serves it takes
 it off all of them.
 */
module Rendezvous {
  import opened Basics
  import opened AltSelect

  /** What a program waits for: a send or a receive, or an alt. */
  datatype Wait = Plain(c: Channel, sending: bool) | InAlt(a: Alt)

  /** All queues, the number of items in each buffer, and the programs that
      wait; all others run, or are not there. */
  datatype Sys = Sys(q: Snap, b: map<Channel, nat>, w: map<Prog, Wait>)

  function Places(w: map<Prog, Wait>, z: Prog, sending: bool): seq<Channel> {
    if z !in w then []
    else
      match w[z]
      case Plain(c, s) => if s == sending then [c] else []
      case InAlt(a) => if sending then FlatOpt(a.sends) else Flat(a.recvs)
  }

  /** Every program waits as often as it has places. */
  ghost predicate Counted(x: map<Channel, seq<Prog>>, w: map<Prog, Wait>, sending: bool) {
    forall z: Prog, c :: c in x ==> multiset(x[c])[z] == multiset(Places(w, z, sending))[c]
  }

  /** The programs wait at their places, and there only. */
  ghost predicate Known(q: Snap, w: map<Prog, Wait>) {
    && q.s.Keys == q.r.Keys && Counted(q.s, w, true) && Counted(q.r, w, false)
    && forall z <- w :: Within(Places(w, z, true), q.s.Keys) && Within(Places(w, z, false), q.s.Keys)
  }

  // ------------------------------------------------------------------
  // Taking a program off a queue

  predicate AllOf(x: seq<Prog>, z: Prog) {
    forall y <- x :: y == z
  }

  lemma {:induction false} WithoutCounts(x: seq<Prog>, z: Prog)
    ensures forall y: Prog :: multiset(Without(x, z))[y] == if y == z then 0 else multiset(x)[y]
  {
    if x != [] {
      assert x == x[..|x| - 1] + [x[|x| - 1]];
      WithoutCounts(x[..|x| - 1], z);
    }
  }

  lemma {:induction false} WithoutJoin(x: seq<Prog>, y: seq<Prog>, z: Prog)
    ensures Without(x + y, z) == Without(x, z) + Without(y, z)
    decreases |y|
  {
    if y == [] {
      assert x + y == x;
    } else {
      var n := |y| - 1;
      assert (x + y)[..|x + y| - 1] == x + y[..n];
      WithoutJoin(x, y[..n], z);
    }
  }

  lemma AllOfPrefix(x: seq<Prog>, z: Prog, n: nat)
    requires n + 1 == |x|
    ensures x == x[..n] + [x[n]]
    ensures AllOf(x, z) <==> AllOf(x[..n], z) && x[n] == z
  {
    assert x == x[..n] + [x[n]] && x[n] in x;
    assert forall y <- x[..n] :: y in x;
  }

  lemma {:induction false} WithoutNone(x: seq<Prog>, z: Prog)
    ensures Without(x, z) == [] <==> AllOf(x, z)
  {
    if x != [] {
      var n := |x| - 1;
      WithoutNone(x[..n], z);
      AllOfPrefix(x, z, n);
    }
  }

  lemma WithoutCopiesOf(p: Prog, n: nat, z: Prog)
    requires p != z
    ensures Without(Copies(p, n), z) == Copies(p, n)
  {
    CopiesAll(p, n);
    WithoutAbsent(Copies(p, n), z);
  }

  lemma {:induction false} AllOfCounts(x: seq<Prog>, z: Prog)
    requires AllOf(x, z)
    ensures multiset(x)[z] == |x|
  {
    if x != [] {
      AllOfPrefix(x, z, |x| - 1);
      AllOfCounts(x[..|x| - 1], z);
    }
  }

  lemma WithoutJoined(x: seq<Prog>, z: Prog, p: Prog, n: nat)
    requires p != z
    ensures Without(x + Copies(p, n), z) == Without(x, z) + Copies(p, n)
    ensures Wiped(x + Copies(p, n), z) <==> n == 0 && AllOf(x, z) && |x| >= 2
  {
    hide Without, Copies, AllOf;
    CopiesAll(p, n);
    WithoutCopiesOf(p, n, z);
    WithoutJoin(x, Copies(p, n), z);
    WithoutNone(x, z);
  }

  lemma WithoutFirst(x: seq<Prog>, z: Prog)
    requires x != [] && x[0] == z
    ensures Without(x[1..], z) == Without(x, z)
    ensures AllOf(x[1..], z) <==> AllOf(x, z)
  {
    hide Without, AllOf;
    assert x == [z] + x[1..];
    WithoutJoin([z], x[1..], z);
    WithoutOne(z, z);
    WithoutNone(x, z);
    WithoutNone(x[1..], z);
  }

  /** A queue that p has joined n times, without its first node if z has been
      served there: what z's altdone does to it. */
  lemma OneQueue(x: seq<Prog>, z: Prog, p: Prog, n: nat, served: bool)
    requires p != z && (served ==> x != [] && x[0] == z)
    ensures var y := x + Copies(p, n); var m := if served then y[1..] else y;
            && Without(m, z) == Without(x, z) + Copies(p, n)
            && (Wiped(m, z) <==> n == 0 && AllOf(x, z) && |x| >= if served then 3 else 2)
  {
    hide Without, Copies, Wiped, AllOf;
    if served {
      assert (x + Copies(p, n))[1..] == x[1..] + Copies(p, n);
      WithoutFirst(x, z);
      WithoutJoined(x[1..], z, p, n);
    } else {
      WithoutJoined(x, z, p, n);
    }
  }

  function Gone(x: map<Channel, seq<Prog>>, z: Prog): map<Channel, seq<Prog>> {
    map c | c in x :: Without(x[c], z)
  }

  /** The queues without z. */
  function Off(q: Snap, z: Prog): Snap {
    Snap(Gone(q.s, z), Gone(q.r, z))
  }

  function Behead(x: map<Channel, seq<Prog>>, at: Option<Channel>): map<Channel, seq<Prog>> {
    if at.Some? && at.value in x && x[at.value] != [] then x[at.value := x[at.value][1..]] else x
  }

  /** Some queue of several nodes that z alone fills, p not having joined it; on
      the one where z has been served a node has gone already. */
  ghost predicate Fills(x: map<Channel, seq<Prog>>, z: Prog, l: seq<Channel>, at: Option<Channel>) {
    exists c :: c in x && c !in l && AllOf(x[c], z) && |x[c]| >= if at == Some(c) then 3 else 2
  }

  /** z's altdone on the queues of one side. */
  lemma SideOff(x: map<Channel, seq<Prog>>, l: seq<Channel>, z: Prog, p: Prog, places: seq<Channel>, at: Option<Channel>)
    requires p != z && forall c <- x :: multiset(x[c])[z] == multiset(places)[c]
    requires at.Some? ==> at.value in x && x[at.value] != [] && x[at.value][0] == z
    ensures var m := Behead(Plus(x, p, l), at);
            && (Visitable(m, z, places) <==> !Fills(x, z, l, at))
            && (Visitable(m, z, places) ==>
                  forall c <- x ::
                    (if c in places then Left(m[c], z) else Q(m[c])) == Q(Gone(x, z)[c] + Copies(p, multiset(l)[c])))
  {
    hide Without, Copies, Wiped, Plus, AllOf;
    var m := Behead(Plus(x, p, l), at);
    forall c | c in x
      ensures Wiped(m[c], z) <==> c !in l && AllOf(x[c], z) && |x[c]| >= if at == Some(c) then 3 else 2
      ensures Wiped(m[c], z) ==> multiset(places)[c] >= 2
      ensures Without(m[c], z) == Gone(x, z)[c] + Copies(p, multiset(l)[c])
      ensures c !in places ==> Q(m[c]) == Q(Gone(x, z)[c] + Copies(p, multiset(l)[c]))
    {
      OneQueue(x[c], z, p, multiset(l)[c], at == Some(c));
      if AllOf(x[c], z) { AllOfCounts(x[c], z); }
      if c !in places { WithoutAbsent(x[c], z); }
    }
    if Fills(x, z, l, at) {
      var c :| c in x && c !in l && AllOf(x[c], z) && |x[c]| >= if at == Some(c) then 3 else 2;
      assert c in m && multiset(places)[c] >= 2 && Wiped(m[c], z);
    }
  }

  // ------------------------------------------------------------------
  // What a partner is told

  lemma {:induction false} FirstOptIs(cs: seq<Option<Channel>>, x: Channel, i: nat)
    requires i <= |cs|
    ensures var k := FirstOpt(cs, x, i);
            if k < 0 then forall j :: i <= j < |cs| ==> cs[j] != Some(x)
            else i <= k < |cs| && cs[k] == Some(x) && forall j :: i <= j < k ==> cs[j] != Some(x)
    decreases |cs| - i
  {
    if i < |cs| && cs[i] != Some(x) { FirstOptIs(cs, x, i + 1); }
  }

  /** The place in the entry is one of the channel, and the first. */
  predicate PlaceIs(t: Target, x: Channel, an: Option<nat>) {
    match t
    case NoChan => false
    case One(c) => c == x && an == None
    case Many(cs) => an.Some? && an.value < |cs| && cs[an.value] == Some(x) && forall j :: 0 <= j < an.value ==> cs[j] != Some(x)
  }

  lemma TargetFirst(t: Target, x: Channel)
    ensures t.Many? ==>
              var k := FirstOpt(t.cs, x, 0);
              if k < 0 then x !in FlatTarget(t) else PlaceIs(t, x, Some(k))
    ensures t.One? ==> (t.c == x <==> x in FlatTarget(t))
    ensures t.NoChan? ==> x !in FlatTarget(t)
  {
    hide FlatOpt, FirstOpt;
    if t.Many? {
      FirstOptIs(t.cs, x, 0);
      if x in FlatOpt(t.cs) { var k := FlatOptHas(t.cs, x); }
    }
  }

  lemma {:induction false} FirstRecvIs(ts: seq<Target>, x: Channel, i: nat, base: nat)
    requires i <= |ts|
    ensures match FirstRecv(ts, x, i, base)
            case NoChoice => forall j :: i <= j < |ts| ==> x !in FlatTarget(ts[j])
            case Chosen(n, an) =>
              && base + i <= n < base + |ts| && PlaceIs(ts[n - base], x, an)
              && forall j :: i <= j < n - base ==> x !in FlatTarget(ts[j])
    decreases |ts| - i
  {
    hide FlatTarget, FirstOpt, PlaceIs;
    if i < |ts| {
      TargetFirst(ts[i], x);
      PlaceOne(ts[i], x);
      FirstRecvIs(ts, x, i + 1, base);
    }
  }

  lemma PlaceOne(t: Target, x: Channel)
    ensures t == One(x) ==> PlaceIs(t, x, None)
  {
  }

  lemma {:induction false} FlatHas(ts: seq<Target>, x: Channel) returns (k: nat)
    requires x in Flat(ts)
    ensures k < |ts| && x in FlatTarget(ts[k])
  {
    hide FlatTarget;
    var n := |ts| - 1;
    if x in FlatTarget(ts[n]) { k := n; } else { k := FlatHas(ts[..n], x); }
  }

  /** The entry told is the first one that names the channel, on the side asked. */
  predicate FirstEntry(a: Alt, c: Channel, sending: bool, told: Choice) {
    && told.Chosen?
    && if sending then
         told.n < |a.sends| && a.sends[told.n] == Some(c) && told.an == None
             && forall j :: 0 <= j < told.n ==> a.sends[j] != Some(c)
       else
         && |a.sends| <= told.n < |a.sends| + |a.recvs| && PlaceIs(a.recvs[told.n - |a.sends|], c, told.an)
         && forall j :: 0 <= j < told.n - |a.sends| ==> c !in FlatTarget(a.recvs[j])
  }

  /** A program that waits on the channel learns the entry that was served. */
  lemma ReportIs(a: Alt, c: Channel, sending: bool)
    requires if sending then c in FlatOpt(a.sends) else c in Flat(a.recvs)
    ensures FirstEntry(a, c, sending, Report(a, Some(c), if sending then 0 else 1))
  {
    hide FlatOpt, Flat, FlatTarget, PlaceIs, FirstRecv, FirstOpt;
    if sending {
      var k := FlatOptHas(a.sends, c);
      FirstOptIs(a.sends, c, 0);
    } else {
      var k := FlatHas(a.recvs, c);
      FirstRecvIs(a.recvs, c, 0, |a.sends|);
    }
  }

  // ------------------------------------------------------------------
  // isend and irecv

  /** How a send or a receive comes out.  NoQueue: the partner's altdone follows
      a null queue.  NoItem: the item is to come from a program that runs, whose
      item pointer is null. */
  datatype Comm = Waits | Done(partner: Option<Prog>, told: Choice) | NoQueue | NoItem

  /** The channel where a program is served on that side, if it is that side. */
  function At(c: Channel, sending: bool, side: bool): Option<Channel> {
    if sending == side then None else Some(c)
  }

  /** The queue on the other side. */
  function Facing(q: Snap, c: Channel, sending: bool): seq<Prog>
    requires c in q.s && c in q.r
  {
    if sending then q.r[c] else q.s[c]
  }

  /** The partner's own altdone fails: it alone fills some queue of its with two
      nodes, or with three before it was served, and the one who serves it has
      not joined that. */
  ghost predicate PartnerFails(q: Snap, z: Prog, c: Channel, sending: bool, s: seq<Channel>, r: seq<Channel>) {
    Fills(q.s, z, s, At(c, sending, true)) || Fills(q.r, z, r, At(c, sending, false))
  }

  /** What altdone tells the partner. */
  function Told(w: map<Prog, Wait>, z: Prog, c: Channel, sending: bool): Choice {
    if z in w && w[z].InAlt? then Report(w[z].a, Some(c), if sending then 1 else 0) else NoChoice
  }

  /** The queues that p has joined, when the first program facing it has left
      the one it was served on. */
  ghost function Leaving(q: Snap, p: Prog, c: Channel, sending: bool, s: seq<Channel>, r: seq<Channel>): Snap {
    Snap(Behead(Plus(q.s, p, s), At(c, sending, true)), Behead(Plus(q.r, p, r), At(c, sending, false)))
  }

  lemma LeavingIs(us: set<Channel>, q: Snap, p: Prog, c: Channel, sending: bool, s: seq<Channel>, r: seq<Channel>)
    requires q.s.Keys == us == q.r.Keys && c in us && Facing(q, c, sending) != []
    ensures var m := Leaving(q, p, c, sending, s, r);
            && m.s.Keys == us == m.r.Keys
            && (forall d <- us :: m.s[d] == (q.s[d] + Copies(p, multiset(s)[d]))[if d == c && !sending then 1 else 0..])
            && (forall d <- us :: m.r[d] == (q.r[d] + Copies(p, multiset(r)[d]))[if d == c && sending then 1 else 0..])
  {
    hide Copies;
  }

  /** What holds of the queues once z has done altdone, or had only the place
      where it was served. */
  lemma ReleasedAlt(us: set<Channel>, q: Snap, w: map<Prog, Wait>, z: Prog, p: Prog, c: Channel, sending: bool, s: seq<Channel>,
                    r: seq<Channel>)
    requires Known(q, w) && p !in w && z in w && us == q.s.Keys && c in us
    requires Facing(q, c, sending) != [] && Facing(q, c, sending)[0] == z
    ensures var m, ls, lr := Leaving(q, p, c, sending, s, r), Places(w, z, true), Places(w, z, false);
            && (Visitable(m.s, z, ls) && Visitable(m.r, z, lr) <==> !PartnerFails(q, z, c, sending, s, r))
            && (Unqueued(us, m, z, ls, lr) && Visitable(m.s, z, ls) && Visitable(m.r, z, lr) ==> Queued(us, Off(q, z), p, s, r))
  {
    hide Visitable, Fills, Places, Left, Plus, Copies, Gone, Behead, Unqueued, Queued, Off;
    var m, ls, lr := Leaving(q, p, c, sending, s, r), Places(w, z, true), Places(w, z, false);
    SideOff(q.s, s, z, p, ls, At(c, sending, true));
    SideOff(q.r, r, z, p, lr, At(c, sending, false));
    if Unqueued(us, m, z, ls, lr) && Visitable(m.s, z, ls) && Visitable(m.r, z, lr) {
      OffQueued(us, q, m, z, p, s, r, ls, lr);
    }
  }

  lemma OffQueued(us: set<Channel>, q: Snap, m: Snap, z: Prog, p: Prog, s: seq<Channel>, r: seq<Channel>, ls: seq<Channel>,
                  lr: seq<Channel>)
    requires Unqueued(us, m, z, ls, lr) && q.s.Keys == us == q.r.Keys
    requires forall c <- q.s :: (if c in ls then Left(m.s[c], z) else Q(m.s[c])) == Q(Gone(q.s, z)[c] + Copies(p, multiset(s)[c]))
    requires forall c <- q.r :: (if c in lr then Left(m.r[c], z) else Q(m.r[c])) == Q(Gone(q.r, z)[c] + Copies(p, multiset(r)[c]))
    ensures Queued(us, Off(q, z), p, s, r)
  {
    hide Left, Copies, Without;
  }

  lemma ReleasedPlain(us: set<Channel>, q: Snap, w: map<Prog, Wait>, z: Prog, p: Prog, c: Channel, sending: bool, s: seq<Channel>,
                      r: seq<Channel>)
    requires Known(q, w) && p !in w && z in w && w[z].Plain? && us == q.s.Keys && c in us
    requires Facing(q, c, sending) != [] && Facing(q, c, sending)[0] == z && w[z].sending != sending
    ensures !PartnerFails(q, z, c, sending, s, r)
    ensures Calm(us, Leaving(q, p, c, sending, s, r)) ==> Queued(us, Off(q, z), p, s, r)
  {
    PlainSide(q.s, w, s, z, p, true, At(c, sending, true));
    PlainSide(q.r, w, r, z, p, false, At(c, sending, false));
    hide Fills, Places, Plus, Copies, Without, Behead;
  }

  lemma PlainCounts(x: map<Channel, seq<Prog>>, w: map<Prog, Wait>, z: Prog, side: bool, at: Option<Channel>, c: Channel)
    requires Counted(x, w, side) && z in w && w[z].Plain? && (at == None ==> w[z].sending != side)
    requires at.Some? ==> at.value in x && x[at.value] != [] && x[at.value][0] == z
    requires c in x
    ensures multiset(x[c])[z] == if at == Some(c) then 1 else 0
  {
    var places: seq<Channel> := Places(w, z, side);
    assert multiset(x[c])[z] == multiset(places)[c];
    if at.Some? {
      assert multiset(x[at.value])[z] == multiset(places)[at.value] && x[at.value][0] in multiset(x[at.value]);
      assert places == [w[z].c] && at.value == w[z].c;
    } else {
      assert places == [];
    }
  }

  lemma OnlyFirst(x: seq<Prog>, z: Prog)
    requires x != [] && x[0] == z && multiset(x)[z] == 1
    ensures z !in x[1..]
  {
    assert x == [z] + x[1..];
  }

  /** A plain waiter leaves a single node. */
  lemma PlainSide(x: map<Channel, seq<Prog>>, w: map<Prog, Wait>, l: seq<Channel>, z: Prog, p: Prog, side: bool,
                  at: Option<Channel>)
    requires Counted(x, w, side) && z in w && w[z].Plain? && (at == None ==> w[z].sending != side)
    requires at.Some? ==> at.value in x && x[at.value] != [] && x[at.value][0] == z
    ensures !Fills(x, z, l, at)
    ensures var m := Behead(Plus(x, p, l), at);
            m.Keys == x.Keys && forall c <- x :: m[c] == Gone(x, z)[c] + Copies(p, multiset(l)[c])
  {
    hide Copies, Plus, Without, AllOf, Counted;
    forall c | c in x
      ensures AllOf(x[c], z) ==> |x[c]| <= 1
      ensures at != Some(c) ==> Without(x[c], z) == x[c]
      ensures at == Some(c) ==> Without(x[c], z) + Copies(p, multiset(l)[c]) == (x[c] + Copies(p, multiset(l)[c]))[1..]
    {
      PlainCounts(x, w, z, side, at, c);
      PlainQueue(x[c], z, multiset(l)[c], p, at == Some(c));
    }
  }

  lemma PlainQueue(x: seq<Prog>, z: Prog, n: nat, p: Prog, served: bool)
    requires multiset(x)[z] == (if served then 1 else 0) && (served ==> x != [] && x[0] == z)
    ensures AllOf(x, z) ==> |x| <= 1
    ensures !served ==> Without(x, z) == x
    ensures served ==> Without(x, z) + Copies(p, n) == (x + Copies(p, n))[1..]
  {
    hide Copies, Without, AllOf;
    if AllOf(x, z) { AllOfCounts(x, z); }
    if served {
      WithoutFirst(x, z);
      OnlyFirst(x, z);
      WithoutAbsent(x[1..], z);
      assert (x + Copies(p, n))[1..] == x[1..] + Copies(p, n);
    } else {
      WithoutAbsent(x, z);
    }
  }

  lemma PlainFaces(q: Snap, w: map<Prog, Wait>, z: Prog, c: Channel, sending: bool)
    requires Known(q, w) && z in w && w[z].Plain? && c in q.s && Facing(q, c, sending) != [] && Facing(q, c, sending)[0] == z
    ensures w[z].sending != sending
  {
    assert z in multiset(Facing(q, c, sending));
  }

  /** The partner's part in isend and irecv, when it waits: its altdone, if it
      waits in an alt. */
  method Release(z: Prog, c: Channel, sending: bool, w: map<Prog, Wait>, ghost p: Prog, ghost us: set<Channel>, ghost q: Snap,
                 ghost s: seq<Channel>, ghost r: seq<Channel>) returns (ok: bool, told: Choice)
    requires Known(q, w) && p !in w && z in w && us == q.s.Keys && c in us
    requires Facing(q, c, sending) != [] && Facing(q, c, sending)[0] == z
    requires Calm(us, Leaving(q, p, c, sending, s, r))
    modifies us`send, us`recv
    ensures ok <==> !PartnerFails(q, z, c, sending, s, r)
    ensures ok ==> Queued(us, Off(q, z), p, s, r) && told == Told(w, z, c, sending)
  {
    hide Leaving, Fills, Off, Queued, Calm, Unqueued, Visitable, Facing, Report, FlatOpt, Flat, Counted;
    ok, told := true, NoChoice;
    match w[z]
    case Plain(_, _) =>
      PlainFaces(q, w, z, c, sending);
      ReleasedPlain(us, q, w, z, p, c, sending, s, r);
    case InAlt(a) =>
      ghost var m := Leaving(q, p, c, sending, s, r);
      CalmIsUnqueued(us, m, z);
      ReleasedAlt(us, q, w, z, p, c, sending, s, r);
      ok, told := AltDone(a, z, Some(c), if sending then 1 else 0, us, m);
      ReleasedAlt(us, q, w, z, p, c, sending, s, r);
  }

  lemma CalmIsUnqueued(us: set<Channel>, q: Snap, p: Prog)
    requires Calm(us, q)
    ensures Unqueued(us, q, p, [], [])
  {
  }

  /** The sizes are those of the map, and a buffer has at least one place. */
  ghost predicate Holds(us: set<Channel>, b: map<Channel, nat>)
    reads us`size
  {
    b.Keys == us && forall c <- us :: c.size == b[c]
  }

  /** Only buffers hold items, and no more than there is room for. */
  predicate Bounded(b: map<Channel, nat>) {
    forall c <- b :: if c.cap.Some? then 0 < c.cap.value && b[c] <= c.cap.value else b[c] == 0
  }

  predicate Room(b: map<Channel, nat>, c: Channel)
    requires c in b
  {
    c.cap.Some? && b[c] < c.cap.value
  }

  predicate Here(y: Sys, c: Channel) {
    c in y.q.s && c in y.q.r && c in y.b
  }

  /** How a send or a receive of p on c comes out, p having joined the queues
      of s and r before. */
  ghost function CommOf(y: Sys, c: Channel, sending: bool, s: seq<Channel>, r: seq<Channel>): Comm
    requires Here(y, c)
  {
    var x := Facing(y.q, c, sending);
    if x != [] then
      if PartnerFails(y.q, x[0], c, sending, s, r) then NoQueue else Done(Some(x[0]), Told(y.w, x[0], c, sending))
    else if !sending && c in s then NoItem
    else if (if sending then Room(y.b, c) else y.b[c] > 0) then Done(None, NoChoice)
    else Waits
  }

  /** How full a buffer is afterwards.  A receiver that a program serves takes
      the oldest item and puts in that of the program, unless it is empty. */
  function Level(size: nat, cap: Option<nat>, sending: bool, served: bool): nat {
    if served then if !sending && cap.Some? && size == 0 then 1 else size
    else if sending then size + 1
    else if size > 0 then size - 1
    else 0
  }

  /** All programs afterwards: a partner is off all queues, and runs. */
  function Met(y: Sys, c: Channel, sending: bool, partner: Option<Prog>): Sys
    requires Here(y, c)
  {
    var b := y.b[c := Level(y.b[c], c.cap, sending, partner.Some?)];
    if partner == None then y.(b := b) else Sys(Off(y.q, partner.value), b, y.w - {partner.value})
  }

  /** The queues and sizes are those of y, with p on those of s and r, too. */
  ghost predicate Amid(us: set<Channel>, y: Sys, p: Prog, s: seq<Channel>, r: seq<Channel>)
    reads us`send, us`recv, us`size
  {
    Queued(us, y.q, p, s, r) && Holds(us, y.b)
  }

  /** All that is told of the system is so, and p runs. */
  ghost predicate Runs(y: Sys, p: Prog) {
    Known(y.q, y.w) && Bounded(y.b) && p !in y.w
  }

  lemma NotWaiting(x: map<Channel, seq<Prog>>, w: map<Prog, Wait>, side: bool, p: Prog, c: Channel)
    requires Counted(x, w, side) && p !in w && c in x
    ensures p !in x[c]
  {
    var places: seq<Channel> := Places(w, p, side);
    assert multiset(x[c])[p] == multiset(places)[c] && places == [];
  }

  lemma RunsAbsent(y: Sys, p: Prog)
    requires Runs(y, p)
    ensures Absent(y.q, p)
  {
    forall c | c in y.q.s ensures p !in y.q.s[c] { NotWaiting(y.q.s, y.w, true, p, c); }
    forall c | c in y.q.r ensures p !in y.q.r[c] { NotWaiting(y.q.r, y.w, false, p, c); }
  }

  lemma FirstWaits(y: Sys, p: Prog, c: Channel, sending: bool)
    requires Runs(y, p) && Here(y, c) && Facing(y.q, c, sending) != []
    ensures Facing(y.q, c, sending)[0] in y.w
  {
    var z := Facing(y.q, c, sending)[0];
    if z !in y.w { NotWaiting(if sending then y.q.r else y.q.s, y.w, !sending, z, c); }
  }

  /** `cgetb`, as far as the size goes. */
  method GetBuffer(c: Channel, ghost us: set<Channel>, ghost b: map<Channel, nat>) returns (ok: bool)
    requires Holds(us, b) && c in us
    modifies c`size
    ensures ok <==> c.cap.Some? && b[c] > 0
    ensures Holds(us, b[c := b[c] - if ok then 1 else 0])
  {
    ok := c.cap.Some? && c.size > 0;
    if ok { c.size := c.size - 1; }
  }

  /** `cputb`, as far as the size goes. */
  method PutBuffer(c: Channel, ghost us: set<Channel>, ghost b: map<Channel, nat>) returns (ok: bool)
    requires Holds(us, b) && c in us
    modifies c`size
    ensures ok <==> Room(b, c)
    ensures Holds(us, b[c := b[c] + if ok then 1 else 0])
  {
    ok := c.CanPut();
    if ok { c.size := c.size + 1; }
  }

  /** The item of a sender who waits goes behind those in the buffer, of which
      the first goes to the receiver. */
  method PassOn(c: Channel, ghost us: set<Channel>, ghost b: map<Channel, nat>)
    requires Holds(us, b) && Bounded(b) && c in us
    modifies c`size
    ensures Holds(us, b[c := Level(b[c], c.cap, false, true)])
  {
    if c.cap.Some? {
      var got := GetBuffer(c, us, b);
      ghost var b' := b[c := b[c] - if got then 1 else 0];
      var put := PutBuffer(c, us, b');
      assert b'[c := b'[c] + 1] == b[c := b'[c] + 1];
    } else {
      assert b[c := b[c]] == b;
    }
  }

  /** Whom the first node of a queue that p may have joined is of. */
  lemma Front(x: seq<Prog>, p: Prog, l: seq<Channel>, c: Channel)
    ensures var m := x + Copies(p, multiset(l)[c]);
            && (x != [] ==> m != [] && m[0] == x[0])
            && (x == [] && c in l ==> m != [] && m[0] == p)
            && (x == [] && c !in l ==> m == [])
  {
    CopiesAll(p, multiset(l)[c]);
    assert c in l <==> multiset(l)[c] > 0;
  }

  /** The first node goes, and who waited there is released. */
  method Meet(c: Channel, sending: bool, w: map<Prog, Wait>, ghost p: Prog, ghost us: set<Channel>, ghost y: Sys,
              ghost s: seq<Channel>, ghost r: seq<Channel>) returns (ok: bool, z: Prog, told: Choice)
    requires Amid(us, y, p, s, r) && Runs(y, p) && w == y.w && c in us && Here(y, c) && Facing(y.q, c, sending) != []
    modifies us`send, us`recv
    ensures z == Facing(y.q, c, sending)[0] && z in w
    ensures ok <==> !PartnerFails(y.q, z, c, sending, s, r)
    ensures ok ==> Queued(us, Off(y.q, z), p, s, r) && told == Told(w, z, c, sending)
  {
    FirstWaits(y, p, c, sending);
    z := RemoveHead(c, sending, p, us, y.q, s, r);
    hide PartnerFails, Off, Known, Bounded, Told, Leaving, Queued, Holds;
    ok, told := Release(z, c, sending, w, p, us, y.q, s, r);
  }

  /** `cqdel`. */
  method RemoveHead(c: Channel, sending: bool, ghost p: Prog, ghost us: set<Channel>, ghost q: Snap, ghost s: seq<Channel>,
                    ghost r: seq<Channel>) returns (z: Prog)
    requires Queued(us, q, p, s, r) && c in us && Facing(q, c, sending) != []
    modifies c`send, c`recv
    ensures z == Facing(q, c, sending)[0] && Calm(us, Leaving(q, p, c, sending, s, r))
  {
    hide Copies, Leaving;
    LeavingIs(us, q, p, c, sending, s, r);
    if sending { Front(q.r[c], p, r, c); } else { Front(q.s[c], p, s, c); }
    if sending {
      z := c.recv.progs[0];
      c.recv := Q(c.recv.progs[1..]);
    } else {
      z := c.send.progs[0];
      c.send := Q(c.send.progs[1..]);
    }
  }

  /** `cqadd`, at the end of the queue on p's own side. */
  method Join(c: Channel, p: Prog, sending: bool, ghost us: set<Channel>, ghost q: Snap, ghost s: seq<Channel>,
              ghost r: seq<Channel>)
    requires Queued(us, q, p, s, r) && c in us
    modifies us`send, us`recv
    ensures if sending then Queued(us, q, p, s + [c], r) else Queued(us, q, p, s, r + [c])
  {
    hide Copies, In;
    if sending {
      OneMore(s, c, {});
      CopiesMore(q.s[c], p, multiset(s)[c]);
      c.send := Q(c.send.progs + [p]);
    } else {
      OneMore(r, c, {});
      CopiesMore(q.r[c], p, multiset(r)[c]);
      c.recv := Q(c.recv.progs + [p]);
    }
  }

  /** What p finds at the head of the queue. */
  lemma FrontIs(us: set<Channel>, y: Sys, p: Prog, c: Channel, s: seq<Channel>, r: seq<Channel>)
    requires Amid(us, y, p, s, r) && Runs(y, p) && c in us
    ensures Here(y, c) && c.send.Q? && c.recv.Q?
    ensures c.recv.progs == [] <==> y.q.r[c] == [] && c !in r
    ensures c.send.progs == [] <==> y.q.s[c] == [] && c !in s
    ensures c.send.progs != [] ==> (c.send.progs[0] in y.w <==> y.q.s[c] != [])
  {
    Front(y.q.r[c], p, r, c);
    Front(y.q.s[c], p, s, c);
    if y.q.s[c] != [] { FirstWaits(y, p, c, false); }
    hide Copies, Known, Bounded;
  }

  /** `isend`. */
  method Isend(c: Channel, p: Prog, w: map<Prog, Wait>, ghost us: set<Channel>, ghost y: Sys, ghost s: seq<Channel>,
               ghost r: seq<Channel>)
      returns (out: Comm, w': map<Prog, Wait>)
    requires Amid(us, y, p, s, r) && Runs(y, p) && w == y.w && c in us && Here(y, c) && (c in r ==> y.q.r[c] != [])
    modifies us`send, us`recv, us`size
    ensures out == CommOf(y, c, true, s, r)
    ensures out.Done? ==> Amid(us, Met(y, c, true, out.partner), p, s, r) && w' == Met(y, c, true, out.partner).w
    ensures out.Waits? ==> Amid(us, y, p, s + [c], r) && w' == w[p := Plain(c, true)]
  {
    hide Queued, Holds, Runs, PartnerFails, Off, Told;
    FrontIs(us, y, p, c, s, r);
    w' := w;
    if c.recv.progs == [] {
      var ok := PutBuffer(c, us, y.b);
      if ok { return Done(None, NoChoice), w; }
      Join(c, p, true, us, y.q, s, r);
      assert y.b[c := y.b[c]] == y.b;
      return Waits, w[p := Plain(c, true)];
    }
    var ok, z, told := Meet(c, true, w, p, us, y, s, r);
    if !ok { return NoQueue, w; }
    assert y.b[c := y.b[c]] == y.b;
    return Done(Some(z), told), w - {z};
  }

  /** `irecv`. */
  method Irecv(c: Channel, p: Prog, w: map<Prog, Wait>, ghost us: set<Channel>, ghost y: Sys, ghost s: seq<Channel>,
               ghost r: seq<Channel>)
      returns (out: Comm, w': map<Prog, Wait>)
    requires Amid(us, y, p, s, r) && Runs(y, p) && w == y.w && c in us && Here(y, c)
    modifies us`send, us`recv, us`size
    ensures out == CommOf(y, c, false, s, r)
    ensures out.Done? ==> Amid(us, Met(y, c, false, out.partner), p, s, r) && w' == Met(y, c, false, out.partner).w
    ensures out.Waits? ==> Amid(us, y, p, s, r + [c]) && w' == w[p := Plain(c, false)]
  {
    hide Queued, Holds, PartnerFails, Off, Told, Known;
    FrontIs(us, y, p, c, s, r);
    w' := w;
    if c.send.progs == [] {
      var ok := GetBuffer(c, us, y.b);
      if ok { return Done(None, NoChoice), w; }
      Join(c, p, false, us, y.q, s, r);
      assert y.b[c := y.b[c]] == y.b;
      return Waits, w[p := Plain(c, false)];
    }
    if c.send.progs[0] !in w { return NoItem, w; }
    var ok, z, told := Meet(c, false, w, p, us, y, s, r);
    if !ok { return NoQueue, w; }
    PassOn(c, us, y.b);
    return Done(Some(z), told), w - {z};
  }

  // ------------------------------------------------------------------
  // The alt statement

  /** What the statement comes to.  There are three ways to follow a null
      pointer: the own altdone comes back to a queue that is gone, before an
      entry is served or after; that of the partner does; or the partner is the
      program itself, which has no item ready. */
  datatype Outcome =
    | Blocked
    | NoneReady(n: nat)
    | Served(k: Pick, partner: Option<Prog>, told: Choice)
    | Exc(e: Exception)
    | NullPointer(after: Option<Pick>)
    | PartnerNull(k: Pick)
    | NullItem(k: Pick)
  {
    /** The entry that is picked. */
    function Entry(): Option<Pick> {
      match this
      case Served(k, _, _) => Some(k)
      case NullPointer(after) => after
      case PartnerNull(k) => Some(k)
      case NullItem(k) => Some(k)
      case _ => None
    }

    predicate Null() { NullPointer? || PartnerNull? || NullItem? }
  }

  /** The channels on which a sender, or a receiver, would not wait. */
  function Takes(y: Sys): set<Channel> {
    set c | c in y.q.r && (y.q.r[c] != [] || (c in y.b && Room(y.b, c)))
  }

  function Gives(y: Sys): set<Channel> {
    set c | c in y.q.s && (y.q.s[c] != [] || (c in y.b && y.b[c] > 0))
  }

  /** p joins some empty queue twice, whether there is a fault or not. */
  ghost predicate Breaks(a: Alt, q: Snap) {
    || (exists c :: c in q.s && q.s[c] == [] && !Itself(a, q.r, c) && multiset(FlatOpt(a.sends))[c] >= 2)
    || Twice(q.r, Flat(a.recvs))
  }

  lemma BreaksIs(a: Alt, q: Snap, ls: seq<Channel>)
    requires Joined(a, q.r, |a.sends|, ls) && q.s.Keys == q.r.Keys
    ensures Breaks(a, q) <==> Twice(q.s, ls) || Twice(q.r, Flat(a.recvs))
  {
    hide FlatOpt, Flat, Itself;
    assert a.sends[..|a.sends|] == a.sends;
    if c :| c in q.s && q.s[c] == [] && multiset(ls)[c] >= 2 {
      assert !Itself(a, q.r, c) && multiset(FlatOpt(a.sends))[c] >= 2;
    }
    if c :| c in q.s && q.s[c] == [] && !Itself(a, q.r, c) && multiset(FlatOpt(a.sends))[c] >= 2 {
      assert multiset(ls)[c] >= 2;
    }
  }

  ghost predicate TwiceAny(q: Snap, ls: seq<Channel>, lr: seq<Channel>) {
    Twice(q.s, ls) || Twice(q.r, lr)
  }

  /** How the alt ends when entry k is picked: the queues that the own altdone
      visits are those without the partner. */
  ghost function EndOf(y: Sys, a: Alt, k: Pick): Outcome
    requires Here(y, k.c)
  {
    var s, r := FlatOpt(a.sends), Flat(a.recvs);
    match CommOf(y, k.c, k.sending, s, r)
    case Waits => Blocked
    case NoItem => NullItem(k)
    case NoQueue => PartnerNull(k)
    case Done(partner, told) =>
      if TwiceAny(Met(y, k.c, k.sending, partner).q, s, r) then NullPointer(Some(k)) else Served(k, partner, told)
  }

  /** The number drawn. */
  function Mod(rand: nat, n: nat): (r: nat)
    requires n > 0
    ensures r < n && exists k: nat :: Multiple(rand, n, k, r)
  {
    assert Multiple(rand, n, rand / n, rand % n);
    rand % n
  }

  predicate Multiple(rand: nat, n: nat, k: nat, r: nat) { rand == n * k + r }

  /** How many entries altrdy finds ready. */
  function Count(a: Alt, y: Sys): nat {
    In(FlatOpt(a.sends), Takes(y)) + In(Flat(a.recvs), Gives(y))
  }

  /** What the alt comes to.  When an entry is to be picked, the program's own
      sends make receive entries ready, too. */
  ghost predicate Does(a: Alt, block: bool, rand: nat, y: Sys, out: Outcome) {
    if Fault(a, y.q.r).Some? then
      out == if Breaks(a, y.q) then NullPointer(None) else Exc(Fault(a, y.q.r).value)
    else if Count(a, y) == 0 then
      out == if block then Blocked else if Breaks(a, y.q) then NullPointer(None) else NoneReady(|a.sends| + |a.recvs|)
    else
      && var k := out.Entry();
      && k.Some? && Here(y, k.value.c) && PicksNow(a, y, Mod(rand, Count(a, y)), k.value) && out == EndOf(y, a, k.value)
  }

  /** The entry that altcomm picks, p waiting everywhere. */
  ghost predicate PicksNow(a: Alt, y: Sys, which: nat, k: Pick) {
    Picks(a, Takes(y), Gives(y) + SetOf(FlatOpt(a.sends)), which, k)
  }

  /** All programs after that. */
  ghost function Next(a: Alt, p: Prog, y: Sys, out: Outcome): Sys {
    match out
    case Blocked => Sys(Marked(y.q, p, FlatOpt(a.sends), Flat(a.recvs)), y.b, y.w[p := InAlt(a)])
    case Served(k, partner, _) => if Here(y, k.c) then Met(y, k.c, k.sending, partner) else y
    case _ => y
  }

  /** The channels the program names are there. */
  ghost predicate Names(a: Alt, us: set<Channel>) {
    Within(FlatOpt(a.sends), us) && Within(Flat(a.recvs), us)
  }

  /** Queues and sizes are those of y. */
  ghost predicate Is(us: set<Channel>, y: Sys)
    reads us`send, us`recv, us`size
  {
    Calm(us, y.q) && Holds(us, y.b)
  }

  lemma OffAbsent(q: Snap, z: Prog, p: Prog)
    requires Absent(q, p)
    ensures Absent(Off(q, z), p)
  {
    forall c | c in q.s ensures p !in Without(q.s[c], z) { WithoutSome(q.s[c], z, p); }
    forall c | c in q.r ensures p !in Without(q.r[c], z) { WithoutSome(q.r[c], z, p); }
  }

  lemma WithoutSome(x: seq<Prog>, z: Prog, p: Prog)
    requires p !in x
    ensures p !in Without(x, z)
  {
    WithoutCounts(x, z);
    hide Without;
    assert multiset(Without(x, z))[p] == 0;
  }

  lemma MetIs(us: set<Channel>, y: Sys, c: Channel, sending: bool, partner: Option<Prog>, p: Prog)
    requires Runs(y, p) && Here(y, c) && y.q.s.Keys == us == y.q.r.Keys
    ensures var d := Met(y, c, sending, partner).q; d.s.Keys == us == d.r.Keys && Absent(d, p)
  {
    RunsAbsent(y, p);
    if partner.Some? { OffAbsent(y.q, partner.value, p); }
    hide Without, Level, Absent;
  }

  /** The own altdone, with the entry served. */
  method Finish(a: Alt, p: Prog, ghost us: set<Channel>, ghost d: Snap) returns (ok: bool)
    requires Names(a, us) && Absent(d, p) && Queued(us, d, p, FlatOpt(a.sends), Flat(a.recvs))
    modifies us`send, us`recv
    ensures ok <==> !TwiceAny(d, FlatOpt(a.sends), Flat(a.recvs))
    ensures ok ==> Calm(us, d)
  {
    hide FlatOpt, Flat, Queued, Absent, Within, Twice, Calm;
    FewerThanItself(us, FlatOpt(a.sends));
    ok := Undo(a, p, us, d, FlatOpt(a.sends));
  }

  /** altcomm and altdone, once the entry is chosen. */
  method ServeAndDone(a: Alt, p: Prog, k: Pick, w: map<Prog, Wait>, ghost us: set<Channel>, ghost y: Sys)
      returns (out: Outcome, w': map<Prog, Wait>)
    requires Names(a, us) && k.c in us && Here(y, k.c) && y.q.s.Keys == us == y.q.r.Keys
    requires Amid(us, y, p, FlatOpt(a.sends), Flat(a.recvs)) && Runs(y, p) && w == y.w
    requires k.sending && k.c in Flat(a.recvs) ==> y.q.r[k.c] != []
    requires CommOf(y, k.c, k.sending, FlatOpt(a.sends), Flat(a.recvs)) != Waits
    modifies us`send, us`recv, us`size
    ensures out == EndOf(y, a, k)
    ensures out.Served? ==> Is(us, Next(a, p, y, out)) && w' == Next(a, p, y, out).w
  {
    hide FlatOpt, Flat, Queued, Calm, Holds, Runs, CommOf, Met, Twice, Within, TwiceAny;
    ghost var s, r := FlatOpt(a.sends), Flat(a.recvs);
    var comm;
    if k.sending {
      comm, w' := Isend(k.c, p, w, us, y, s, r);
    } else {
      comm, w' := Irecv(k.c, p, w, us, y, s, r);
    }
    match comm
    case NoItem => out := NullItem(k);
    case NoQueue => out := PartnerNull(k);
    case Waits => assert false;
    case Done(partner, told) =>
      MetIs(us, y, k.c, k.sending, partner, p);
      var ok := Finish(a, p, us, Met(y, k.c, k.sending, partner).q);
      out := if ok then Served(k, partner, told) else NullPointer(Some(k));
  }

  lemma ReadyAre(us: set<Channel>, y: Sys)
    requires Is(us, y)
    ensures Readies(us, Takes(y), Gives(y)) && y.q.s.Keys == us == y.q.r.Keys
    ensures ReadyAs(us, y.q, Takes(y), Gives(y))
  {
  }

  lemma ReadyStill(us: set<Channel>, y: Sys, p: Prog, s: seq<Channel>, r: seq<Channel>)
    requires Amid(us, y, p, s, r)
    ensures ReadyAs(us, y.q, Takes(y), Gives(y)) && y.q.s.Keys == us == y.q.r.Keys == y.b.Keys
  {
    hide Copies;
  }

  /** An entry picked need not wait. */
  lemma PickGoes(a: Alt, y: Sys, which: nat, k: Pick)
    requires PicksNow(a, y, which, k) && Here(y, k.c)
    ensures CommOf(y, k.c, k.sending, FlatOpt(a.sends), Flat(a.recvs)) != Waits
  {
    PickHas(a, Takes(y), Gives(y) + SetOf(FlatOpt(a.sends)), which, k);
    hide FlatOpt, Flat, Picks, PartnerFails, Told;
  }

  /** xecalt after an altrdy that found no fault. */
  method Proceed(a: Alt, p: Prog, block: bool, rand: nat, nrdy: nat, w: map<Prog, Wait>, ghost us: set<Channel>, ghost y: Sys)
      returns (out: Outcome, w': map<Prog, Wait>)
    requires Names(a, us) && Runs(y, p) && w == y.w && Fault(a, y.q.r) == None && nrdy == Count(a, y)
    requires Amid(us, y, p, FlatOpt(a.sends), Flat(a.recvs))
    requires Breaks(a, y.q) <==> TwiceAny(y.q, FlatOpt(a.sends), Flat(a.recvs))
    modifies us`send, us`recv, us`size
    ensures Does(a, block, rand, y, out)
    ensures !out.Null() ==> Is(us, Next(a, p, y, out)) && w' == Next(a, p, y, out).w
  {
    hide FlatOpt, Flat, Queued, Calm, Holds, In, Within, Breaks, TwiceAny, Fault, Picks, SetOf, Mod, NoSelf, CommOf, EndOf, Met,
      Takes, Gives, Known, Bounded;
    ReadyStill(us, y, p, FlatOpt(a.sends), Flat(a.recvs));
    RunsAbsent(y, p);
    w' := w;
    if nrdy == 0 && block {
      out, w' := Blocked, w[p := InAlt(a)];
      QueuedIsCalm(us, y.q, p, FlatOpt(a.sends), Flat(a.recvs));
    } else if nrdy == 0 {
      var ok := Finish(a, p, us, y.q);
      out := if ok then NoneReady(|a.sends| + |a.recvs|) else NullPointer(None);
    } else {
      var k := Choose(a, p, Mod(rand, nrdy), us, y.q, Takes(y), Gives(y));
      PickGoes(a, y, Mod(rand, nrdy), k);
      out, w' := ServeAndDone(a, p, k, w, us, y);
      EndIs(y, a, k);
    }
  }

  lemma EndIs(y: Sys, a: Alt, k: Pick)
    requires Here(y, k.c) && CommOf(y, k.c, k.sending, FlatOpt(a.sends), Flat(a.recvs)) != Waits
    ensures var out := EndOf(y, a, k); out.Entry() == Some(k) && (out.Null() || out.Served?)
  {
    hide CommOf, FlatOpt, Flat, TwiceAny, Met;
  }

  lemma QueuedIsCalm(us: set<Channel>, q: Snap, p: Prog, s: seq<Channel>, r: seq<Channel>)
    requires Queued(us, q, p, s, r)
    ensures Calm(us, Marked(q, p, s, r))
  {
    hide Copies;
  }

  /** `xecalt`: what it comes to, all queues, all buffers and all programs that
      wait afterwards are told. */
  method Xecalt(a: Alt, p: Prog, block: bool, rand: nat, w: map<Prog, Wait>, ghost us: set<Channel>, ghost y: Sys)
      returns (out: Outcome, w': map<Prog, Wait>)
    requires Names(a, us) && Is(us, y) && Runs(y, p) && w == y.w
    modifies us`send, us`recv, us`size
    ensures Does(a, block, rand, y, out)
    ensures !out.Null() ==> Is(us, Next(a, p, y, out)) && w' == Next(a, p, y, out).w
  {
    hide FlatOpt, Flat, Queued, Calm, Holds, In, Within, Fault, Breaks, Twice, Takes, Gives, Known, Bounded, Joined, Readies;
    ReadyAre(us, y);
    RunsAbsent(y, p);
    ghost var ls;
    var ready;
    ready, ls := AltRdy(a, p, us, y.q, Takes(y), Gives(y));
    BreaksIs(a, y.q, ls);
    w' := w;
    match ready
    case Raised(e) => out := Exc(e);
    case Crashed => out := NullPointer(None);
    case Ready(nrdy) =>
      out, w' := Proceed(a, p, block, rand, nrdy, w, us, y);
  }

  // ------------------------------------------------------------------
  // What follows

  /** The programs and the queues before fix what the alt comes to. */
  lemma OneOutcome(a: Alt, block: bool, rand: nat, y: Sys, out: Outcome, other: Outcome)
    requires Does(a, block, rand, y, out) && Does(a, block, rand, y, other)
    ensures out == other
  {
    hide FlatOpt, Flat, In, Picks, Fault, Breaks, EndOf, SetOf, Mod, Takes, Gives;
    if Fault(a, y.q.r) == None && Count(a, y) > 0 {
      PickUnique(a, Takes(y), Gives(y) + SetOf(FlatOpt(a.sends)), Mod(rand, Count(a, y)), out.Entry().value, other.Entry().value);
    }
  }

  /** The entry picked was ready before, when no receive entry is made ready by
      the program's own sends. */
  lemma EntryWasReady(a: Alt, block: bool, rand: nat, y: Sys, out: Outcome)
    requires Does(a, block, rand, y, out) && out.Entry().Some? && NoSelf(a, Gives(y))
    ensures Count(a, y) > 0 && Picks(a, Takes(y), Gives(y), Mod(rand, Count(a, y)), out.Entry().value)
  {
    hide FlatOpt, Flat, In, Picks, Fault, Breaks, EndOf, SetOf, Mod, Takes, Gives, NoSelf;
    PickWasReady(a, Takes(y), Gives(y), Mod(rand, Count(a, y)), out.Entry().value);
  }

  /** Of n numbers in a row one leaves the remainder asked for. */
  lemma SomeNumber(from: nat, n: nat, r: nat) returns (rand: nat)
    requires r < n
    ensures from <= rand < from + n && Mod(rand, n) == r
  {
    var m := from % n;
    var rise := if m <= r then r - m else r - m + n;
    rand := from + rise;
    var k := if m <= r then from / n else from / n + 1;
    assert from == n * (from / n) + m;
    assert n * (from / n + 1) == n * (from / n) + n;
    assert rand == n * k + r;
    var j: nat :| Multiple(rand, n, j, Mod(rand, n));
    SameRemainder(n, k, r, j, Mod(rand, n));
  }

  lemma SameRemainder(n: nat, k: nat, r: nat, j: nat, s: nat)
    requires r < n && s < n && n * k + r == n * j + s
    ensures r == s
  {
    NextMultiple(n, k, j);
    NextMultiple(n, j, k);
  }

  lemma NextMultiple(n: nat, k: nat, j: nat)
    ensures k < j ==> n * k + n <= n * j
  {
    if k < j { assert n * j == n * k + n + n * (j - k - 1); }
  }

  /** No ready entry starves: of any n numbers in a row, n being the number of
      entries found ready, one makes the alt serve it. */
  lemma EveryEntry(a: Alt, block: bool, y: Sys, k: Pick, from: nat) returns (rand: nat)
    requires Fault(a, y.q.r) == None && NoSelf(a, Gives(y)) && ReadyEntry(a, Takes(y), Gives(y), k) && Here(y, k.c)
    ensures Count(a, y) > 0 && from <= rand < from + Count(a, y)
    ensures Does(a, block, rand, y, EndOf(y, a, k)) && EndOf(y, a, k).Entry() == Some(k)
    ensures forall out :: Does(a, block, rand, y, out) ==> out == EndOf(y, a, k)
  {
    hide FlatOpt, Flat, In, Picks, Fault, EndOf, SetOf, Takes, Gives, NoSelf, ReadyEntry, NumberOf, Mod, Breaks;
    ReadyPicked(a, Takes(y), Gives(y), k);
    var which := NumberOf(a, Takes(y), Gives(y), k);
    PickWasReady(a, Takes(y), Gives(y), which, k);
    rand := SomeNumber(from, Count(a, y), which);
    PickGoes(a, y, which, k);
    EndIs(y, a, k);
    forall out | Does(a, block, rand, y, out)
      ensures out == EndOf(y, a, k)
    {
      OneOutcome(a, block, rand, y, out, EndOf(y, a, k));
    }
  }

  /** The number picks a receive entry on a channel that the program sends on,
      too, and on which nobody else waits to send. */
  ghost predicate PicksOwn(a: Alt, y: Sys, which: int) {
    exists c, n, an ::
      && c in y.q.s && Picks(a, Takes(y), Gives(y) + SetOf(FlatOpt(a.sends)), which, Pick(c, false, n, an))
      && y.q.s[c] == [] && c in FlatOpt(a.sends)
  }

  /** A channel of both sides has another sender. */
  predicate Apart(a: Alt, q: Snap) {
    forall c :: c in FlatOpt(a.sends) && c in Flat(a.recvs) && c in q.s ==> q.s[c] != []
  }

  /** When the program finds itself as its partner, and reads through its null
      pointer. */
  lemma OwnPartner(a: Alt, block: bool, rand: nat, y: Sys, out: Outcome)
    requires Does(a, block, rand, y, out) && y.q.s.Keys == y.q.r.Keys == y.b.Keys
    ensures out.NullItem? <==> Fault(a, y.q.r) == None && Count(a, y) > 0 && PicksOwn(a, y, Mod(rand, Count(a, y)))
    ensures Apart(a, y.q) ==> !out.NullItem?
  {
    hide FlatOpt, Flat, In, Picks, Fault, Breaks, TwiceAny, SetOf, Mod, Takes, Gives, PartnerFails, Told, Met;
    if Fault(a, y.q.r) == None && Count(a, y) > 0 {
      var which, rr, k := Mod(rand, Count(a, y)), Gives(y) + SetOf(FlatOpt(a.sends)), out.Entry().value;
      PickHas(a, Takes(y), rr, which, k);
      if out.NullItem? {
        assert k == Pick(k.c, false, k.n, k.an);
      }
      if PicksOwn(a, y, which) {
        var c, i, an :| c in y.q.s && Picks(a, Takes(y), rr, which, Pick(c, false, i, an)) && y.q.s[c] == []
            && c in FlatOpt(a.sends);
        PickUnique(a, Takes(y), rr, which, k, Pick(c, false, i, an));
      }
    }
  }

  /** A partner that waits in an alt learns the first entry, and place in it,
      that names the channel on its side. */
  lemma PartnerLearns(y: Sys, z: Prog, c: Channel, sending: bool)
    requires Known(y.q, y.w) && Here(y, c) && Facing(y.q, c, sending) != [] && z == Facing(y.q, c, sending)[0]
    requires z in y.w && y.w[z].InAlt?
    ensures FirstEntry(y.w[z].a, c, !sending, Told(y.w, z, c, sending))
  {
    hide FirstEntry, Report, FlatOpt, Flat;
    var x, places: seq<Channel> := Facing(y.q, c, sending), Places(y.w, z, !sending);
    assert x[0] in multiset(x) && multiset(x)[z] == multiset(places)[c];
    ReportIs(y.w[z].a, c, !sending);
  }

  // ------------------------------------------------------------------
  // What every step keeps

  /** Nobody waits for what is there: who receives from a channel waits neither
      with a sender nor with items, and who sends, not with room for an item. */
  ghost predicate Tight(y: Sys) {
    forall c <- y.b :: Here(y, c) ==>
      && (y.q.r[c] != [] ==> y.q.s[c] == [] && y.b[c] == 0)
      && (y.q.s[c] != [] ==> !Room(y.b, c))
  }

  ghost predicate Inv(y: Sys) {
    Known(y.q, y.w) && y.b.Keys == y.q.s.Keys && Bounded(y.b) && Tight(y)
  }

  lemma GoneCounted(x: map<Channel, seq<Prog>>, w: map<Prog, Wait>, side: bool, z: Prog)
    requires Counted(x, w, side)
    ensures Counted(Gone(x, z), w - {z}, side)
  {
    hide Without;
    forall v: Prog, c | c in x
      ensures multiset(Gone(x, z)[c])[v] == multiset(Places(w - {z}, v, side))[c]
    {
      WithoutCounts(x[c], z);
      assert multiset(x[c])[v] == multiset(Places(w, v, side))[c];
      var none: seq<Channel> := [];
      assert v == z ==> Places(w - {z}, v, side) == none;
    }
  }

  lemma OffKnown(q: Snap, w: map<Prog, Wait>, z: Prog)
    requires Known(q, w)
    ensures Known(Off(q, z), w - {z})
  {
    hide Without, Counted;
    GoneCounted(q.s, w, true, z);
    GoneCounted(q.r, w, false, z);
  }

  lemma {:induction false} CopiesCount(p: Prog, n: nat)
    ensures forall v: Prog :: multiset(Copies(p, n))[v] == if v == p then n else 0
  {
    if n > 0 { CopiesCount(p, n - 1); }
  }

  lemma JoinedCount(x: seq<Prog>, p: Prog, n: nat, v: Prog)
    ensures multiset(x + Copies(p, n))[v] == multiset(x)[v] + if v == p then n else 0
  {
    CopiesCount(p, n);
    hide Copies;
  }

  lemma PlacesOf(w: map<Prog, Wait>, p: Prog, how: Wait, v: Prog, side: bool, c: Channel)
    requires p !in w
    ensures Places(w[p := how], v, side) == if v == p then Places(map[p := how], p, side) else Places(w, v, side)
    ensures v == p ==> var places: seq<Channel> := Places(w, v, side); multiset(places)[c] == 0
  {
    hide FlatOpt, Flat;
    var places: seq<Channel> := Places(w, v, side);
    assert v == p ==> places == [];
  }

  lemma PlusCounted(x: map<Channel, seq<Prog>>, w: map<Prog, Wait>, how: Wait, side: bool, p: Prog, l: seq<Channel>)
    requires Counted(x, w, side) && p !in w && Places(map[p := how], p, side) == l
    ensures Counted(Plus(x, p, l), w[p := how], side)
  {
    hide Copies, Places;
    forall v: Prog, c | c in x
      ensures multiset(Plus(x, p, l)[c])[v] == multiset(Places(w[p := how], v, side))[c]
    {
      JoinedCount(x[c], p, multiset(l)[c], v);
      PlacesOf(w, p, how, v, side, c);
    }
  }

  lemma JoinKnown(q: Snap, w: map<Prog, Wait>, p: Prog, how: Wait, s: seq<Channel>, r: seq<Channel>)
    requires Known(q, w) && p !in w && Within(s, q.s.Keys) && Within(r, q.s.Keys)
    requires Places(map[p := how], p, true) == s && Places(map[p := how], p, false) == r
    ensures Known(Marked(q, p, s, r), w[p := how])
  {
    hide Counted, Plus, Copies, Within, FlatOpt, Flat;
    PlusCounted(q.s, w, how, true, p, s);
    PlusCounted(q.r, w, how, false, p, r);
    MarkedParts(q, p, s, r);
    assert forall side :: Places(w[p := how], p, side) == Places(map[p := how], p, side);
  }

  lemma JoinTight(y: Sys, p: Prog, w': map<Prog, Wait>, s: seq<Channel>, r: seq<Channel>)
    requires Tight(y) && y.q.s.Keys == y.q.r.Keys == y.b.Keys && Within(s, y.b.Keys) && Within(r, y.b.Keys)
    requires forall c <- s :: y.q.r[c] == [] && !Room(y.b, c) && c !in r
    requires forall c <- r :: y.q.s[c] == [] && y.b[c] == 0
    ensures Tight(Sys(Marked(y.q, p, s, r), y.b, w'))
  {
    hide Copies;
    forall c | c in y.b
      ensures c !in s ==> y.q.s[c] + Copies(p, multiset(s)[c]) == y.q.s[c]
      ensures c !in r ==> y.q.r[c] + Copies(p, multiset(r)[c]) == y.q.r[c]
    {
      CopiesNone(y.q.s[c], p);
      CopiesNone(y.q.r[c], p);
    }
  }

  lemma MetTight(y: Sys, c: Channel, sending: bool, partner: Option<Prog>)
    requires Inv(y) && Here(y, c)
    requires partner == (var x := Facing(y.q, c, sending); if x == [] then None else Some(x[0]))
    requires partner == None ==> if sending then Room(y.b, c) else y.b[c] > 0
    ensures Inv(Met(y, c, sending, partner))
  {
    hide Counted, Known, Tight, Bounded, Off;
    if partner.Some? {
      OffKnown(y.q, y.w, partner.value);
      OffTight(y, partner.value);
    }
    MetLevel(y, c, sending, partner);
    MetKeys(y, c, sending, partner);
  }

  lemma MetKeys(y: Sys, c: Channel, sending: bool, partner: Option<Prog>)
    requires Here(y, c)
    ensures var z := Met(y, c, sending, partner); z.q.s.Keys == y.q.s.Keys && (y.b.Keys == y.q.s.Keys ==> z.b.Keys == z.q.s.Keys)
  {
    hide Without, Level;
  }

  lemma OffTight(y: Sys, z: Prog)
    requires Tight(y)
    ensures Tight(Sys(Off(y.q, z), y.b, y.w - {z}))
  {
    assert Without([], z) == [];
    hide Without, Room;
  }

  /** The size that changes is that of a buffer nobody waits for. */
  lemma MetLevel(y: Sys, c: Channel, sending: bool, partner: Option<Prog>)
    requires Bounded(y.b) && Tight(y) && Here(y, c)
    requires partner == (var x := Facing(y.q, c, sending); if x == [] then None else Some(x[0]))
    requires partner == None ==> if sending then Room(y.b, c) else y.b[c] > 0
    requires partner.Some? ==> Tight(Sys(Off(y.q, partner.value), y.b, y.w - {partner.value}))
    ensures Bounded(Met(y, c, sending, partner).b) && Tight(Met(y, c, sending, partner))
  {
    hide Off;
    assert partner.Some? ==> Level(y.b[c], c.cap, sending, true) == y.b[c];
  }

  lemma {:induction false} InZero(l: seq<Channel>, r: set<Channel>)
    requires In(l, r) == 0
    ensures forall c <- l :: c !in r
  {
    if l != [] {
      assert l == l[..|l| - 1] + [l[|l| - 1]];
      InZero(l[..|l| - 1], r);
    }
  }

  /** An alt that blocks is not one that somebody waits for. */
  lemma BlockedTight(a: Alt, p: Prog, y: Sys)
    requires Inv(y) && p !in y.w && Names(a, y.b.Keys) && Fault(a, y.q.r) == None && Count(a, y) == 0
    ensures Inv(Next(a, p, y, Blocked))
  {
    var s, r := FlatOpt(a.sends), Flat(a.recvs);
    InZero(s, Takes(y));
    InZero(r, Gives(y));
    SendsApart(a, y.q);
    JoinKnown(y.q, y.w, p, InAlt(a), s, r);
    JoinTight(y, p, y.w[p := InAlt(a)], s, r);
    hide FlatOpt, Flat, In, Fault, Known, Tight, Bounded;
  }

  /** Every alt of a program that runs keeps the invariant. */
  lemma NextKeeps(a: Alt, p: Prog, block: bool, rand: nat, y: Sys, out: Outcome)
    requires Inv(y) && p !in y.w && Names(a, y.b.Keys) && Does(a, block, rand, y, out)
    ensures !out.Null() ==> Inv(Next(a, p, y, out))
  {
    hide FlatOpt, Flat, In, Fault, Breaks, TwiceAny, PartnerFails, Told, Inv, SetOf, Mod, Met, Takes, Gives, Picks;
    if out.Served? {
      MetTight(y, out.k.c, out.k.sending, out.partner);
    } else if out.Blocked? {
      BlockedTight(a, p, y);
    }
  }

  /** Then a sender finds no items before its own, and a receiver a full buffer:
      isend and irecv have nothing to complain of. */
  lemma NoComplaint(y: Sys, c: Channel, sending: bool)
    requires Inv(y) && c in y.b && Facing(y.q, c, sending) != []
    ensures y.b[c] == if sending || c.cap == None then 0 else c.cap.value
  {
    hide Counted;
  }

  // ------------------------------------------------------------------
  // Whole runs

  lemma KillSide(x: map<Channel, seq<Prog>>, z: Prog, places: seq<Channel>)
    requires forall c <- x :: multiset(x[c])[z] == multiset(places)[c]
    ensures Visitable(x, z, places) <==> !Fills(x, z, [], None)
    ensures Visitable(x, z, places) ==> forall c <- x :: (if c in places then Left(x[c], z) else Q(x[c])) == Q(Gone(x, z)[c])
  {
    hide Visitable, Fills, Left, Without, Copies;
    SideOff(x, [], z, z + 1, places, None);
    forall c | c in x
      ensures Plus(x, z + 1, [])[c] == x[c] && Gone(x, z)[c] + Copies(z + 1, 0) == Gone(x, z)[c]
    {
      CopiesNone(x[c], z + 1);
      CopiesNone(Gone(x, z)[c], z + 1);
    }
    assert Plus(x, z + 1, []) == x;
  }

  /** Some queue of several nodes is z's alone. */
  ghost predicate KillFails(q: Snap, z: Prog) {
    Fills(q.s, z, [], None) || Fills(q.r, z, [], None)
  }

  lemma Killed(us: set<Channel>, q: Snap, w: map<Prog, Wait>, z: Prog)
    requires Known(q, w) && z in w && us == q.s.Keys
    ensures var ls, lr := Places(w, z, true), Places(w, z, false);
            && (Visitable(q.s, z, ls) && Visitable(q.r, z, lr) <==> !KillFails(q, z))
            && (Unqueued(us, q, z, ls, lr) && Visitable(q.s, z, ls) && Visitable(q.r, z, lr) ==> Calm(us, Off(q, z)))
  {
    hide Visitable, Fills, Places, Left, Gone, Unqueued, Calm, Off;
    var ls, lr := Places(w, z, true), Places(w, z, false);
    KillSide(q.s, z, ls);
    KillSide(q.r, z, lr);
    if Unqueued(us, q, z, ls, lr) && Visitable(q.s, z, ls) && Visitable(q.r, z, lr) { OffCalm(us, q, z, ls, lr); }
  }

  lemma OffCalm(us: set<Channel>, q: Snap, z: Prog, ls: seq<Channel>, lr: seq<Channel>)
    requires Unqueued(us, q, z, ls, lr) && q.s.Keys == us == q.r.Keys
    requires forall c <- q.s :: (if c in ls then Left(q.s[c], z) else Q(q.s[c])) == Q(Gone(q.s, z)[c])
    requires forall c <- q.r :: (if c in lr then Left(q.r[c], z) else Q(q.r[c])) == Q(Gone(q.r, z)[c])
    ensures Calm(us, Off(q, z))
  {
    hide Left, Without;
  }

  /** The queue part of `killprog`: z, which may wait, is taken off its queues. */
  method KillProg(z: Prog, w: map<Prog, Wait>, ghost us: set<Channel>, ghost y: Sys) returns (ok: bool, w': map<Prog, Wait>)
    requires Is(us, y) && Known(y.q, y.w) && w == y.w
    modifies us`send, us`recv
    ensures ok <==> z in w ==> !KillFails(y.q, z)
    ensures ok ==> w' == w - {z} && Is(us, if z in w then Sys(Off(y.q, z), y.b, w') else y)
  {
    hide Visitable, KillFails, Calm, Unqueued, Holds, Report, FlatOpt, Flat, Counted, Off;
    ok, w' := true, w - {z};
    if z !in w { return; }
    KnownKeys(us, y);
    CalmIsUnqueued(us, y.q, z);
    VisitNone(y.q.s, z);
    VisitNone(y.q.r, z);
    match w[z] {
      case Plain(c, sending) =>
        OnePlace(w, z);
        if sending { ok := UnqueueSend(c, z, us, y.q, [], []); } else { ok := UnqueueRecv(c, z, us, y.q, [], []); }
      case InAlt(a) =>
        var choice;
        ok, choice := AltDone(a, z, None, -1, us, y.q);
    }
    Killed(us, y.q, w, z);
  }

  lemma OnePlace(w: map<Prog, Wait>, z: Prog)
    requires z in w && w[z].Plain?
    ensures var c: Channel := w[z].c;
            && Places(w, z, w[z].sending) == [] + [c] && Places(w, z, !w[z].sending) == []
  {
  }

  lemma KnownKeys(us: set<Channel>, y: Sys)
    requires Is(us, y)
    ensures us == y.q.s.Keys == y.q.r.Keys == y.b.Keys
  {
  }

  /** What a program that runs may do. */
  datatype Command = Send(c: Channel) | Recv(c: Channel) | Select(a: Alt, block: bool, rand: nat) | Kill(z: Prog)

  ghost predicate Uses(cmd: Command, us: set<Channel>) {
    match cmd
    case Send(c) => c in us
    case Recv(c) => c in us
    case Select(a, _, _) => Names(a, us)
    case Kill(_) => true
  }

  /** What a select comes to; the other commands are told by the programs. */
  ghost predicate Comes(y: Sys, cmd: Command, out: Outcome) {
    cmd.Select? ==> Does(cmd.a, cmd.block, cmd.rand, y, out)
  }

  /** The command, with that outcome of a select, follows a null pointer. */
  ghost predicate Crashes(y: Sys, cmd: Command, out: Outcome)
    requires Uses(cmd, y.b.Keys) && y.q.s.Keys == y.q.r.Keys == y.b.Keys
  {
    match cmd
    case Send(c) => CommOf(y, c, true, [], []) == NoQueue
    case Recv(c) => CommOf(y, c, false, [], []) == NoQueue
    case Select(_, _, _) => out.Null()
    case Kill(z) => z in y.w && KillFails(y.q, z)
  }

  /** All programs after a plain send or receive that does not fail. */
  ghost function AfterComm(y: Sys, p: Prog, c: Channel, sending: bool): Sys
    requires Here(y, c)
  {
    match CommOf(y, c, sending, [], [])
    case Done(partner, _) => Met(y, c, sending, partner)
    case _ => Sys(Marked(y.q, p, if sending then [c] else [], if sending then [] else [c]), y.b, y.w[p := Plain(c, sending)])
  }

  ghost predicate Steps(y: Sys, p: Prog, cmd: Command, out: Outcome, y': Sys)
    requires Uses(cmd, y.b.Keys) && y.q.s.Keys == y.q.r.Keys == y.b.Keys
  {
    match cmd
    case Send(c) => y' == AfterComm(y, p, c, true)
    case Recv(c) => y' == AfterComm(y, p, c, false)
    case Select(a, _, _) => y' == Next(a, p, y, out)
    case Kill(z) => y' == if z in y.w then Sys(Off(y.q, z), y.b, y.w - {z}) else y
  }

  lemma CommKeeps(y: Sys, p: Prog, c: Channel, sending: bool)
    requires Inv(y) && p !in y.w && Here(y, c)
    ensures CommOf(y, c, sending, [], []) != NoQueue ==> Inv(AfterComm(y, p, c, sending))
    ensures CommOf(y, c, sending, [], []) != NoItem
  {
    var s: seq<Channel>, r: seq<Channel> := if sending then [c] else [], if sending then [] else [c];
    hide PartnerFails, Told, Met, Counted, Marked;
    match CommOf(y, c, sending, [], [])
    case Done(partner, _) => MetTight(y, c, sending, partner);
    case Waits =>
      JoinKnown(y.q, y.w, p, Plain(c, sending), s, r);
      JoinTight(y, p, y.w[p := Plain(c, sending)], s, r);
      MarkedKeys(y.q, p, s, r);
    case _ =>
  }

  lemma MarkedKeys(q: Snap, p: Prog, s: seq<Channel>, r: seq<Channel>)
    ensures Marked(q, p, s, r).s.Keys == q.s.Keys
  {
  }

  /** Every step of a program that runs keeps the invariant. */
  lemma StepKeeps(y: Sys, p: Prog, cmd: Command, out: Outcome, y': Sys)
    requires Inv(y) && p !in y.w && Uses(cmd, y.b.Keys)
    requires Comes(y, cmd, out) && !Crashes(y, cmd, out) && Steps(y, p, cmd, out, y')
    ensures Inv(y')
  {
    hide Does, PartnerFails, Counted, Tight, Bounded, KillFails, Next, Off, AfterComm, CommOf, Within;
    match cmd
    case Send(c) => CommKeeps(y, p, c, true);
    case Recv(c) => CommKeeps(y, p, c, false);
    case Select(a, block, rand) =>
      NextKeeps(a, p, block, rand, y, out);
    case Kill(z) =>
      if z in y.w {
        OffKnown(y.q, y.w, z);
        OffTight(y, z);
        OffKeys(y.q, z);
      }
  }

  lemma OffKeys(q: Snap, z: Prog)
    ensures Off(q, z).s.Keys == q.s.Keys && Off(q, z).r.Keys == q.r.Keys
  {
    hide Without;
  }

  method Plainly(p: Prog, c: Channel, sending: bool, w: map<Prog, Wait>, ghost us: set<Channel>, ghost y: Sys)
      returns (ok: bool, w': map<Prog, Wait>)
    requires Is(us, y) && Inv(y) && p !in w && w == y.w && c in us && Here(y, c)
    modifies us`send, us`recv, us`size
    ensures ok <==> CommOf(y, c, sending, [], []) != NoQueue
    ensures ok ==> Is(us, AfterComm(y, p, c, sending)) && w' == AfterComm(y, p, c, sending).w
  {
    hide Calm, Holds, Queued, Met, Known, Bounded, Tight, CommOf, Marked;
    CalmIsQueued(us, y.q, p);
    CommKeeps(y, p, c, sending);
    var comm;
    if sending {
      comm, w' := Isend(c, p, w, us, y, [], []);
    } else {
      comm, w' := Irecv(c, p, w, us, y, [], []);
    }
    ok := comm != NoQueue;
    ghost var s: seq<Channel>, r: seq<Channel> := if sending then [c] else [], if sending then [] else [c];
    assert [] + [c] == [c];
    if comm.Done? {
      QueuedNone(us, Met(y, c, sending, comm.partner).q, p);
    } else if comm.Waits? {
      QueuedIsCalm(us, y.q, p, s, r);
    }
  }

  lemma QueuedNone(us: set<Channel>, q: Snap, p: Prog)
    requires Queued(us, q, p, [], [])
    ensures Calm(us, q)
  {
    hide Copies;
    forall c | c in us ensures q.s[c] + Copies(p, 0) == q.s[c] && q.r[c] + Copies(p, 0) == q.r[c] {
      CopiesNone(q.s[c], p);
      CopiesNone(q.r[c], p);
    }
  }

  /** One command of a program that runs. */
  method Execute(p: Prog, cmd: Command, w: map<Prog, Wait>, ghost us: set<Channel>, ghost y: Sys)
      returns (ok: bool, w': map<Prog, Wait>, ghost out: Outcome, ghost y': Sys)
    requires Is(us, y) && Inv(y) && p !in w && w == y.w && us == y.b.Keys && Uses(cmd, us)
    modifies us`send, us`recv, us`size
    ensures Comes(y, cmd, out) && (ok <==> !Crashes(y, cmd, out))
    ensures ok ==> Is(us, y') && w' == y'.w && Steps(y, p, cmd, out, y')
  {
    hide Is, Counted, Bounded, Tight, Does, Next, KillFails, AfterComm, CommOf, Off, Within, FlatOpt, Flat;
    out := Blocked;
    match cmd
    case Send(c) =>
      ok, w' := Plainly(p, c, true, w, us, y);
      y' := AfterComm(y, p, c, true);
    case Recv(c) =>
      ok, w' := Plainly(p, c, false, w, us, y);
      y' := AfterComm(y, p, c, false);
    case Select(a, block, rand) =>
      var o;
      o, w' := Xecalt(a, p, block, rand, w, us, y);
      ok, out, y' := !o.Null(), o, Next(a, p, y, o);
    case Kill(z) =>
      ok, w' := KillProg(z, w, us, y);
      y' := if z in w then Sys(Off(y.q, z), y.b, w') else y;
      assert z !in w ==> w' == w;
  }

  /** Programs that send, receive, select and are killed, in any order, as long as
      no null pointer is followed: a program that waits does so at its places,
      and never for what is there.  One that waits does nothing. */
  method Run(cmds: seq<(Prog, Command)>, w0: map<Prog, Wait>, ghost us: set<Channel>, ghost y0: Sys)
      returns (n: nat, w: map<Prog, Wait>, ghost y: Sys, ghost out: Outcome)
    requires Is(us, y0) && Inv(y0) && w0 == y0.w && us == y0.b.Keys && forall i :: 0 <= i < |cmds| ==> Uses(cmds[i].1, us)
    modifies us`send, us`recv, us`size
    ensures n <= |cmds| && Inv(y) && y.b.Keys == us
    ensures n == |cmds| ==> Is(us, y) && w == y.w
    ensures n < |cmds| ==> cmds[n].0 !in y.w && Comes(y, cmds[n].1, out) && Crashes(y, cmds[n].1, out)
  {
    hide Is, Known, Bounded, Tight, Crashes, Steps, Uses, Comes;
    n, w, y, out := 0, w0, y0, Blocked;
    while n < |cmds|
      invariant n <= |cmds| && Is(us, y) && Inv(y) && w == y.w && us == y.b.Keys
    {
      var (p, cmd) := cmds[n];
      if p !in w {
        var ok, w';
        ghost var y';
        ok, w', out, y' := Execute(p, cmd, w, us, y);
        if !ok { return; }
        StepKeeps(y, p, cmd, out, y');
        KnownKeys(us, y');
        w, y := w', y';
      }
      n := n + 1;
    }
  }

  // ------------------------------------------------------------------
  // Runs from new channels

  /** New channels that nobody waits on. */
  ghost function New(us: set<Channel>): Sys {
    Sys(Snap(map c | c in us :: [], map c | c in us :: []), map c | c in us :: 0, map[])
  }

  lemma NewIs(us: set<Channel>)
    requires forall c <- us :: c.send == c.recv == Q([]) && c.size == 0 && (c.cap.Some? ==> c.cap.value > 0)
    ensures Is(us, New(us)) && Inv(New(us)) && New(us).b.Keys == us
  {
    var none: seq<Channel>, nobody: seq<Prog> := [], [];
    assert forall z: Prog, side :: Places(map[], z, side) == none;
    assert forall z: Prog :: multiset(nobody)[z] == 0;
    assert forall c: Channel <- us :: multiset(none)[c] == 0;
  }

  lemma FlatMore(ts: seq<Target>, c: Channel)
    ensures Flat(ts + [One(c)]) == Flat(ts) + [c]
  {
    assert (ts + [One(c)])[..|ts|] == ts;
  }

  lemma FlatSend(c: Channel)
    ensures FlatOpt([]) == [] && FlatOpt([Some(c)]) == [c]
  {
    hide FlatOpt;
    FlatOptNone();
    FlatOptStep([Some(c)], 0);
    assert [Some(c)][..0] == [] && [Some(c)][..1] == [Some(c)];
  }

  lemma FlatOne(c: Channel)
    ensures Flat([One(c)]) == [c]
  {
    hide Flat;
    FlatNone({});
    FlatMore([], c);
    assert [] + [One(c)] == [One(c)];
  }

  lemma FlatTwo(c: Channel, d: Channel)
    ensures Flat([One(c), One(d)]) == [c, d]
  {
    hide Flat;
    FlatOne(c);
    FlatMore([One(c)], d);
    assert [One(c)] + [One(d)] == [One(c), One(d)];
  }

  lemma FlatThree(c: Channel, d: Channel, e: Channel)
    ensures Flat([One(c), One(d), One(e)]) == [c, d, e]
  {
    hide Flat;
    FlatTwo(c, d);
    FlatMore([One(c), One(d)], e);
    assert [One(c), One(d)] + [One(e)] == [One(c), One(d), One(e)];
  }

  lemma FlatThem(c: Channel, d: Channel, e: Channel)
    ensures FlatOpt([]) == [] && FlatOpt([Some(c)]) == [c]
    ensures Flat([One(c)]) == [c] && Flat([One(c), One(d)]) == [c, d] && Flat([One(c), One(d), One(e)]) == [c, d, e]
  {
    hide FlatOpt, Flat;
    FlatSend(c);
    FlatOne(c);
    FlatTwo(c, d);
    FlatThree(c, d, e);
  }

  lemma InTwo(c: Channel, d: Channel, r: set<Channel>)
    ensures In([], r) == 0 && In([c], r) == (if c in r then 1 else 0)
    ensures In([c, d], r) == In([c], r) + if d in r then 1 else 0
  {
    InNone(r);
    InOne(c, r);
    OneMore([c], d, r);
    assert [c] + [d] == [c, d];
  }

  lemma {:induction false} InEmpty(l: seq<Channel>)
    ensures In(l, {}) == 0
  {
    if l != [] { InEmpty(l[..|l| - 1]); }
  }

  lemma NobodyReady(us: set<Channel>)
    ensures Gives(New(us)) == {}
  {
  }

  /** An alt that only receives, from new channels, waits. */
  lemma Waiting(ts: seq<Target>, us: set<Channel>, block: bool, rand: nat, out: Outcome)
    requires Does(Alt([], ts), block, rand, New(us), out) && (forall t <- ts :: !t.NoChan?)
    ensures block ==> out == Blocked
    ensures !block && Twice(New(us).q.r, Flat(ts)) ==> out == NullPointer(None)
  {
    var a := Alt([], ts);
    assert FlatOpt(a.sends) == [];
    InEmpty(Flat(ts));
    InNone(Takes(New(us)));
    NobodyReady(us);
    assert Fault(a, New(us).q.r) == None;
    hide Flat, In, New, Takes, Gives;
  }

  /** An alt that receives twice from one new channel, and does not block, follows
      a null queue when it gives up. */
  method NullQueue(len: nat, p: Prog, rand: nat) returns (out: Outcome)
    ensures out == NullPointer(None)
  {
    var c := new Channel(len);
    ghost var us := {c};
    NewIs(us);
    FlatThem(c, c, c);
    var a := Alt([], [One(c), One(c)]);
    assert multiset([c, c])[c] == 2;
    assert c in New(us).q.r && New(us).q.r[c] == [] && Twice(New(us).q.r, [c, c]);
    hide FlatOpt, Flat, Does, Inv, Is, Next;
    var w;
    out, w := Xecalt(a, p, false, rand, map[], us, New(us));
    Waiting(a.recvs, us, false, rand, out);
  }

  lemma OneCopy(p: Prog)
    ensures Copies(p, 0) == [] && Copies(p, 1) == [p] && Copies(p, 2) == [p, p]
    ensures Without([], p) == [] && Without([p], p) == []
  {
    assert Copies(p, 1) == [] + [p];
    WithoutOne(p, p);
  }

  /** The system when program 1 has blocked in an alt that receives from channels
      that nobody waited on. */
  ghost function OneBlocked(ts: seq<Target>, us: set<Channel>): Sys {
    Next(Alt([], ts), 1, New(us), Blocked)
  }

  method BlockOne(ts: seq<Target>, ghost us: set<Channel>) returns (w: map<Prog, Wait>)
    requires Is(us, New(us)) && Inv(New(us)) && New(us).b.Keys == us && Within(Flat(ts), us) && forall t <- ts :: !t.NoChan?
    modifies us`send, us`recv, us`size
    ensures w == OneBlocked(ts, us).w && Is(us, OneBlocked(ts, us)) && Inv(OneBlocked(ts, us)) && 2 !in w
  {
    hide FlatOpt, Flat, Does, Inv, Is, Next;
    FlatOptNone();
    InvRuns(New(us), 1);
    NewNobody(us);
    var out;
    out, w := Xecalt(Alt([], ts), 1, true, 0, map[], us, New(us));
    Waiting(ts, us, true, 0, out);
    NextKeeps(Alt([], ts), 1, true, 0, New(us), out);
    BlockedAre(ts, us);
  }

  lemma NewNobody(us: set<Channel>)
    ensures New(us).w == map[]
  {
  }

  lemma BlockedAre(ts: seq<Target>, us: set<Channel>)
    ensures OneBlocked(ts, us).w == map[1 := InAlt(Alt([], ts))]
  {
    hide FlatOpt, Flat, Marked;
  }

  lemma InvRuns(y: Sys, p: Prog)
    requires Inv(y) && p !in y.w
    ensures Runs(y, p)
  {
  }

  lemma BlockedOn(ts: seq<Target>, us: set<Channel>, c: Channel)
    requires c in us
    ensures var y := OneBlocked(ts, us);
            && y.q.s.Keys == y.q.r.Keys == y.b.Keys == us && y.b[c] == 0
            && y.q.s[c] == [] && y.q.r[c] == Copies(1, multiset(Flat(ts))[c])
  {
    FlatOptNone();
    OneCopy(1);
    hide Flat, Copies;
    assert [] + Copies(1, multiset(Flat(ts))[c]) == Copies(1, multiset(Flat(ts))[c]);
  }

  method TwoChannels() returns (c: Channel, e: Channel)
    ensures fresh(c) && fresh(e) && c != e && c.cap == e.cap == None
    ensures Is({c, e}, New({c, e})) && Inv(New({c, e})) && New({c, e}).b.Keys == {c, e}
  {
    hide Is, Inv, New;
    c := new Channel(0);
    e := new Channel(0);
    NewIs({c, e});
  }

  /** A partner that waits in an alt is off all its queues, which matters to the
      one who serves it: program 2 sends on c to program 1, that waits on c and
      on e.  When program 2 receives from e, too, it goes well, and nobody waits
      on e any more; when it does so twice, the queue of e is its own alone, and
      gone when it gives up. */
  method PartnerGone(twice: bool) returns (c: Channel, e: Channel, out: Outcome)
    ensures c != e
    ensures !twice ==> out == Served(Pick(c, true, 0, None), Some(1), Chosen(0, None))
    ensures !twice ==> c.send == c.recv == e.send == e.recv == Q([])
    ensures twice ==> out == NullPointer(Some(Pick(c, true, 0, None)))
  {
    hide FlatOpt, Flat, Does, Inv, Is, Next, New, OneBlocked, Runs;
    c, e := TwoChannels();
    var ts, a := [One(c), One(e)], Alt([Some(c)], if twice then [One(e), One(e)] else [One(e)]);
    ghost var us, y := {c, e}, OneBlocked(ts, {c, e});
    FlatThem(c, e, e);
    FlatThem(e, e, e);
    var w := BlockOne(ts, us);
    InvRuns(y, 2);
    out, w := Xecalt(a, 2, false, 0, w, us, y);
    TwoOn(c, e, ts, y);
    ServesOne(c, e, ts, twice, a, y, out);
    if !twice { NobodyLeft(a, c, e, y, out); }
  }

  /** Program 1 waits on c and e, and nobody else does. */
  ghost predicate OnBoth(c: Channel, e: Channel, ts: seq<Target>, y: Sys) {
    && c != e && y.q.s.Keys == y.q.r.Keys == y.b.Keys == {c, e} && y.b[c] == y.b[e] == 0
    && y.q.s[c] == y.q.s[e] == [] && y.q.r[c] == y.q.r[e] == [1] && y.w == map[1 := InAlt(Alt([], ts))]
  }

  lemma TwoOn(c: Channel, e: Channel, ts: seq<Target>, y: Sys)
    requires c != e && ts == [One(c), One(e)] && y == OneBlocked(ts, {c, e})
    ensures OnBoth(c, e, ts, y)
  {
    FlatThem(c, e, e);
    BlockedOn(ts, {c, e}, c);
    BlockedOn(ts, {c, e}, e);
    BlockedAre(ts, {c, e});
    OneCopy(1);
    hide Flat, Copies, OneBlocked;
    assert multiset([c, e]) == multiset{c, e};
  }

  lemma ServesOne(c: Channel, e: Channel, ts: seq<Target>, twice: bool, a: Alt, y: Sys, out: Outcome)
    requires OnBoth(c, e, ts, y) && c.cap == e.cap == None && ts == [One(c), One(e)]
    requires a == Alt([Some(c)], if twice then [One(e), One(e)] else [One(e)])
    requires Does(a, false, 0, y, out)
    ensures out == if twice then NullPointer(Some(Pick(c, true, 0, None)))
              else Served(Pick(c, true, 0, None), Some(1), Chosen(0, None))
  {
    hide FlatOpt, Flat, In, Picks, Fault, EndOf;
    var k := Pick(c, true, 0, None);
    FlatThem(c, e, e);
    FlatThem(e, e, e);
    TakesBoth(c, e, ts, y);
    InTwo(c, c, {c, e});
    InTwo(e, e, {});
    FaultNot(a, c, e, y.q.r);
    FirstSend(a, c, {c, e}, Gives(y) + SetOf(FlatOpt(a.sends)));
    PickUnique(a, {c, e}, Gives(y) + SetOf(FlatOpt(a.sends)), 0, k, out.Entry().value);
    EndsOne(c, e, ts, twice, a, y);
  }

  lemma FaultNot(a: Alt, c: Channel, e: Channel, r: map<Channel, seq<Prog>>)
    requires a.sends == [Some(c)] && (forall t <- a.recvs :: !t.NoChan?) && c in r && r[c] != []
    ensures Fault(a, r) == None
  {
    FaultIs(a, r, 1);
    hide BadSend;
  }

  lemma FirstSend(a: Alt, c: Channel, rs: set<Channel>, rr: set<Channel>)
    requires a.sends == [Some(c)] && c in rs
    ensures Picks(a, rs, rr, 0, Pick(c, true, 0, None))
  {
    assert a.sends[..0] == [];
  }

  lemma TakesBoth(c: Channel, e: Channel, ts: seq<Target>, y: Sys)
    requires OnBoth(c, e, ts, y)
    ensures Takes(y) == {c, e} && Gives(y) == {}
  {
  }

  lemma EndsOne(c: Channel, e: Channel, ts: seq<Target>, twice: bool, a: Alt, y: Sys)
    requires OnBoth(c, e, ts, y) && c.cap == e.cap == None && ts == [One(c), One(e)]
    requires FlatOpt(a.sends) == [c] && Flat(a.recvs) == if twice then [e, e] else [e]
    ensures EndOf(y, a, Pick(c, true, 0, None))
         == if twice then NullPointer(Some(Pick(c, true, 0, None))) else Served(Pick(c, true, 0, None), Some(1), Chosen(0, None))
  {
    hide FlatOpt, Flat, Without, PartnerFails, Off, Twice;
    OneFills(c, e, y, Flat(a.recvs));
    OneOff(c, e, y, twice, Flat(a.recvs));
    FirstEntryIs(c, e, ts);
  }

  lemma FirstEntryIs(c: Channel, e: Channel, ts: seq<Target>)
    requires ts == [One(c), One(e)]
    ensures Report(Alt([], ts), Some(c), 1) == Chosen(0, None)
  {
  }

  lemma OneFills(c: Channel, e: Channel, y: Sys, r: seq<Channel>)
    requires y.q.s.Keys == y.q.r.Keys == {c, e} && y.q.s[c] == y.q.s[e] == [] && y.q.r[c] == y.q.r[e] == [1]
    ensures !PartnerFails(y.q, 1, c, true, [c], r)
  {
  }

  lemma OneOff(c: Channel, e: Channel, y: Sys, twice: bool, r: seq<Channel>)
    requires y.q.s.Keys == y.q.r.Keys == {c, e} && y.q.s[c] == y.q.s[e] == [] && y.q.r[c] == y.q.r[e] == [1]
    requires c != e && r == if twice then [e, e] else [e]
    ensures !Twice(Off(y.q, 1).s, [c]) && (Twice(Off(y.q, 1).r, r) <==> twice)
  {
    OneCopy(1);
    hide Without;
    var d := Off(y.q, 1);
    assert d.r[c] == d.r[e] == d.s[c] == d.s[e] == [];
    assert multiset(r)[e] == if twice then 2 else 1;
    assert multiset(r)[c] == 0;
  }

  lemma NobodyLeft(a: Alt, c: Channel, e: Channel, y: Sys, out: Outcome)
    requires out == Served(Pick(c, true, 0, None), Some(1), Chosen(0, None)) && Here(y, c) && y.q.s.Keys == y.q.r.Keys == {c, e}
    requires y.q.s[c] == y.q.s[e] == [] && y.q.r[c] == y.q.r[e] == [1]
    requires Is({c, e}, Next(a, 2, y, out))
    ensures c.send == c.recv == e.send == e.recv == Q([])
  {
    OneCopy(1);
    hide Without;
  }

  /** The partner's altdone may be the one that fails, though it is a plain sender
      that serves it: program 1 waits twice on e and once on c. */
  method PartnerLost() returns (out: Comm)
    ensures out == NoQueue
  {
    hide Flat, Inv, Is, Next, New, OneBlocked, Runs, CommOf;
    var c, e := TwoChannels();
    var ts := [One(e), One(e), One(c)];
    ghost var us, y := {c, e}, OneBlocked(ts, {c, e});
    FlatThem(e, e, c);
    var w := BlockOne(ts, us);
    InvRuns(y, 2);
    BlockedOn(ts, us, c);
    Amidst(us, y, 2);
    out, w := Isend(c, 2, w, us, y, [], []);
    LostThere(c, e, ts, y);
  }

  lemma Amidst(us: set<Channel>, y: Sys, p: Prog)
    requires Is(us, y)
    ensures Amid(us, y, p, [], [])
  {
    CalmIsQueued(us, y.q, p);
    hide Queued, Calm;
  }

  lemma LostThere(c: Channel, e: Channel, ts: seq<Target>, y: Sys)
    requires c != e && ts == [One(e), One(e), One(c)] && y == OneBlocked(ts, {c, e})
    ensures Here(y, c) && CommOf(y, c, true, [], []) == NoQueue
  {
    FlatThem(e, e, c);
    BlockedOn(ts, {c, e}, c);
    BlockedOn(ts, {c, e}, e);
    OneCopy(1);
    hide Flat, Copies, OneBlocked, Told, Fills;
    assert multiset([e, e, c]) == multiset{e, e, c};
    LostFills(c, e, y.q.r);
  }

  lemma LostFills(c: Channel, e: Channel, r: map<Channel, seq<Prog>>)
    requires c != e && e in r && r[e] == [1, 1]
    ensures Fills(r, 1, [], Some(c))
  {
    var places: seq<Channel> := [];
    assert e in r && e !in places && AllOf(r[e], 1) && |r[e]| >= 2;
  }

  /** An alt that sends on c, where x receives, and receives from c and from d,
      where y sends: of the two ready entries number 1 is its own send on c, and
      it reads the item through its own null pointer. */
  method MeetsItself(c: Channel, d: Channel, p: Prog, x: Prog, y: Prog, rand: nat, ghost us: set<Channel>, ghost v: Sys)
      returns (out: Outcome)
    requires c != d && c.cap == d.cap == None && p != x && p != y && x != y && rand % 2 == 1
    requires us == {c, d} && Is(us, v) && v.b == map[c := 0, d := 0]
    requires v.q == Snap(map[c := [], d := [y]], map[c := [x], d := []]) && v.w == map[x := Plain(c, false), y := Plain(d, true)]
    modifies us`send, us`recv, us`size
    ensures out == NullItem(Pick(c, false, 1, None))
  {
    hide FlatOpt, Flat, Does, Is, Next, Known;
    var a := Alt([Some(c)], [One(c), One(d)]);
    FlatThem(c, d, d);
    TwoKnown(c, d, x, y, v);
    var w;
    out, w := Xecalt(a, p, true, rand, map[x := Plain(c, false), y := Plain(d, true)], us, v);
    OwnDoes(c, d, a, x, y, rand, v, out);
  }

  lemma TwoKnown(c: Channel, d: Channel, x: Prog, y: Prog, v: Sys)
    requires c != d && x != y
    requires v.q == Snap(map[c := [], d := [y]], map[c := [x], d := []]) && v.w == map[x := Plain(c, false), y := Plain(d, true)]
    ensures Known(v.q, v.w)
  {
    hide Places, Counted;
    forall z: Prog
      ensures Places(v.w, z, true) == if z == y then [d] else []
      ensures Places(v.w, z, false) == if z == x then [c] else []
    {
      TwoPlaces(c, d, x, y, v.w, z);
    }
    OneSide(v.q.s, v.w, true, y, d);
    OneSide(v.q.r, v.w, false, x, c);
  }

  lemma OneSide(m: map<Channel, seq<Prog>>, w: map<Prog, Wait>, side: bool, z: Prog, g: Channel)
    requires forall h <- m :: m[h] == if h == g then [z] else []
    requires forall v: Prog :: Places(w, v, side) == if v == z then [g] else []
    ensures Counted(m, w, side)
  {
    hide Places;
    forall v: Prog, h | h in m
      ensures multiset(m[h])[v] == multiset(Places(w, v, side))[h]
    {
      Single(z, v, g, h);
    }
  }

  lemma TwoPlaces(c: Channel, d: Channel, x: Prog, y: Prog, w: map<Prog, Wait>, z: Prog)
    requires x != y && w == map[x := Plain(c, false), y := Plain(d, true)]
    ensures Places(w, z, true) == if z == y then [d] else []
    ensures Places(w, z, false) == if z == x then [c] else []
  {
  }

  lemma Single(x: Prog, z: Prog, c: Channel, g: Channel)
    ensures multiset([x])[z] == (if z == x then 1 else 0) && multiset([c])[g] == if g == c then 1 else 0
    ensures var none: seq<Channel>, nobody: seq<Prog> := [], []; multiset(nobody)[z] == multiset(none)[g] == 0
  {
  }

  lemma OwnDoes(c: Channel, d: Channel, a: Alt, x: Prog, y: Prog, rand: nat, v: Sys, out: Outcome)
    requires c != d && c.cap == d.cap == None && rand % 2 == 1 && v.b == map[c := 0, d := 0]
    requires v.q == Snap(map[c := [], d := [y]], map[c := [x], d := []]) && a == Alt([Some(c)], [One(c), One(d)])
    requires Does(a, true, rand, v, out)
    ensures out == NullItem(Pick(c, false, 1, None))
  {
    hide FlatOpt, Flat, In, Picks, Fault, Takes, Gives;
    var k := Pick(c, false, 1, None);
    FlatThem(c, d, d);
    OwnReady(c, d, x, y, v);
    FaultNot(a, c, d, v.q.r);
    OwnNumber(c, d);
    PickUnique(a, {c}, {c, d}, 1, k, out.Entry().value);
  }

  lemma OwnReady(c: Channel, d: Channel, x: Prog, y: Prog, v: Sys)
    requires c != d && c.cap == d.cap == None && v.b == map[c := 0, d := 0]
    requires v.q == Snap(map[c := [], d := [y]], map[c := [x], d := []])
    ensures Takes(v) == {c} && Gives(v) == {d} && Gives(v) + SetOf([c]) == {c, d}
  {
  }

  lemma OwnNumber(c: Channel, d: Channel)
    requires c != d
    ensures var a := Alt([Some(c)], [One(c), One(d)]);
            && In(FlatOpt(a.sends), {c}) + In(Flat(a.recvs), {d}) == 2
            && Picks(a, {c}, {c, d}, 1, Pick(c, false, 1, None))
  {
    var a := Alt([Some(c)], [One(c), One(d)]);
    FlatThem(c, d, d);
    InTwo(c, d, {c});
    InTwo(c, d, {d});
    InNone({c, d});
    assert a.recvs[..0] == [] && a.recvs[..1] == [One(c)];
    hide FlatOpt, Flat, In;
  }
}
