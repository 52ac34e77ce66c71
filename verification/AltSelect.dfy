/**
 Alt, the select of Dis (libinterp/alt.c): count the ready channels while
 queueing the program on all of them, pick one of the ready ones, and take the
 program off all queues again.  Channels are shared objects: an alt may name
 one several times, and on both sides.
 */
module AltSelect {
  import opened Basics

  type Prog = nat

  /** A queue of waiting programs, or the null pointer: a queue always has a
      node, and an empty one has a node without a program. */
  datatype Queue = Nil | Q(progs: seq<Prog>)

  function Without(q: seq<Prog>, p: Prog): seq<Prog> {
    if q == [] then []
    else if q[|q| - 1] == p then Without(q[..|q| - 1], p)
    else Without(q[..|q| - 1], p) + [q[|q| - 1]]
  }

  function Copies(p: Prog, k: nat): seq<Prog> {
    if k == 0 then [] else Copies(p, k - 1) + [p]
  }

  /** cqdelp removes every node of p, and with them the last node there is if
      there were at least two and all were p's. */
  function DelP(q: seq<Prog>, p: Prog): Queue {
    if |q| <= 1 then Q(if q == [p] then [] else q)
    else if Wiped(q, p) then Nil
    else Q(Without(q, p))
  }

  predicate Wiped(q: seq<Prog>, p: Prog) {
    |q| >= 2 && Without(q, p) == []
  }

  lemma {:induction false} WithoutAbsent(q: seq<Prog>, p: Prog)
    requires p !in q
    ensures Without(q, p) == q
  {
    if q != [] {
      assert q == q[..|q| - 1] + [q[|q| - 1]];
      WithoutAbsent(q[..|q| - 1], p);
    }
  }

  /** A program that joined a queue at the end leaves it as it was. */
  lemma {:induction false} WithoutCopies(q: seq<Prog>, p: Prog, k: nat)
    requires p !in q
    ensures Without(q + Copies(p, k), p) == q
    ensures |q + Copies(p, k)| == |q| + k
  {
    if k == 0 {
      assert q + [] == q;
      WithoutAbsent(q, p);
    } else {
      var r := q + Copies(p, k);
      assert r[..|r| - 1] == q + Copies(p, k - 1) && r[|r| - 1] == p;
      WithoutCopies(q, p, k - 1);
    }
  }

  lemma HeadAfterCopies(q: seq<Prog>, p: Prog, k: nat)
    requires p !in q
    ensures var r := q + Copies(p, k);
            && (r == [] <==> q == [] && k == 0)
            && (r != [] ==> (r[0] == p <==> q == []))
  {
    CopiesAll(p, k);
    if q != [] { assert (q + Copies(p, k))[0] == q[0]; }
  }

  lemma {:induction false} CopiesAll(p: Prog, k: nat)
    ensures |Copies(p, k)| == k && forall i :: 0 <= i < k ==> Copies(p, k)[i] == p
  {
    if k > 0 { CopiesAll(p, k - 1); }
  }

  class Channel {
    var send: Queue        // who waits to hand an item over
    var recv: Queue        // who waits for an item
    var size: nat          // how many items the buffer holds
    const cap: Option<nat>   // and how many it has room for, if there is one

    /** A new channel, with a buffer if `len` is not 0. */
    constructor (len: nat)
      ensures send == recv == Q([]) && size == 0 && cap == if len > 0 then Some(len) else None
    {
      send, recv, size := Q([]), Q([]), 0;
      cap := if len > 0 then Some(len) else None;
    }

    predicate CanGet() reads this`size { size > 0 }

    predicate CanPut() reads this`size { cap.Some? && size < cap.value }

    /** A receiver would not wait. */
    predicate Sends()
      reads this`send, this`size
    {
      (send.Q? && send.progs != []) || CanGet()
    }

    /** A sender would not wait. */
    predicate Receives()
      reads this`recv, this`size
    {
      (recv.Q? && recv.progs != []) || CanPut()
    }
  }

  datatype Target = NoChan | One(c: Channel) | Many(cs: seq<Option<Channel>>)

  /** The send entries, and then the receive entries, each a channel or an
      array of channels. */
  datatype Alt = Alt(sends: seq<Option<Channel>>, recvs: seq<Target>)

  function FlatOpt(cs: seq<Option<Channel>>): seq<Channel> {
    if cs == [] then []
    else FlatOpt(cs[..|cs| - 1]) + (if cs[|cs| - 1].Some? then [cs[|cs| - 1].value] else [])
  }

  function FlatTarget(t: Target): seq<Channel> {
    match t
    case NoChan => []
    case One(c) => [c]
    case Many(cs) => FlatOpt(cs)
  }

  function Flat(ts: seq<Target>): seq<Channel> {
    if ts == [] then [] else Flat(ts[..|ts| - 1]) + FlatTarget(ts[|ts| - 1])
  }

  /** How many places of a list name a channel of the set. */
  function In(l: seq<Channel>, r: set<Channel>): nat {
    if l == [] then 0 else In(l[..|l| - 1], r) + if l[|l| - 1] in r then 1 else 0
  }

  lemma {:induction false} InJoin(l: seq<Channel>, m: seq<Channel>, r: set<Channel>)
    ensures In(l + m, r) == In(l, r) + In(m, r)
    decreases |m|
  {
    if m == [] {
      assert l + m == l;
    } else {
      assert (l + m)[..|l + m| - 1] == l + m[..|m| - 1];
      InJoin(l, m[..|m| - 1], r);
    }
  }

  lemma {:induction false} InSub(l: seq<Channel>, r: set<Channel>, t: set<Channel>)
    requires forall c <- l :: c in r ==> c in t
    ensures In(l, r) <= In(l, t)
    ensures In(l, r) == In(l, t) <==> forall c <- l :: c in t ==> c in r
  {
    if l != [] {
      var n := |l| - 1;
      assert l == l[..n] + [l[n]];
      InSub(l[..n], r, t);
      assert forall c :: c in l <==> c in l[..n] || c == l[n];
    }
  }

  // ------------------------------------------------------------------
  // Pass 1

  /** The queues as they were: `s` and `r` for sending and receiving. */
  datatype Snap = Snap(s: map<Channel, seq<Prog>>, r: map<Channel, seq<Prog>>)

  /** The queues of `us` are those of the snapshot with p added at the end once
      for each place of `ls` and `lr`. */
  ghost predicate Queued(us: set<Channel>, q: Snap, p: Prog, ls: seq<Channel>, lr: seq<Channel>)
    reads us`send, us`recv
  {
    && q.s.Keys == us && q.r.Keys == us
    && forall c <- us :: c.send == Q(q.s[c] + Copies(p, multiset(ls)[c])) && c.recv == Q(q.r[c] + Copies(p, multiset(lr)[c]))
  }

  /** p waits nowhere in the snapshot. */
  ghost predicate Absent(q: Snap, p: Prog) {
    (forall c <- q.s :: p !in q.s[c]) && (forall c <- q.r :: p !in q.r[c])
  }

  predicate Within(l: seq<Channel>, us: set<Channel>) {
    forall c <- l :: c in us
  }

  lemma OneMore(l: seq<Channel>, c: Channel, rdy: set<Channel>)
    ensures In(l + [c], rdy) == In(l, rdy) + if c in rdy then 1 else 0
    ensures multiset(l + [c]) == multiset(l)[c := multiset(l)[c] + 1]
  {
    assert (l + [c])[..|l|] == l;
  }

  lemma CopiesMore(q: seq<Prog>, p: Prog, k: nat)
    ensures q + Copies(p, k) + [p] == q + Copies(p, k + 1)
  {
  }

  /** Count one channel to receive from, and wait on it. */
  method MarkRecv(c: Channel, p: Prog, ghost us: set<Channel>, ghost q: Snap, ghost l: seq<Channel>, ghost rdy: set<Channel>)
      returns (n: nat)
    requires c in us && Queued(us, q, p, [], l)
    requires c in rdy <==> c.Sends()
    modifies us`recv
    ensures Queued(us, q, p, [], l + [c])
    ensures In(l + [c], rdy) == In(l, rdy) + n
  {
    n := if c.Sends() then 1 else 0;
    OneMore(l, c, rdy);
    CopiesMore(q.r[c], p, multiset(l)[c]);
    hide In, Copies;
    c.recv := Q(c.recv.progs + [p]);
  }

  lemma FlatOptStep(cs: seq<Option<Channel>>, i: nat)
    requires i < |cs|
    ensures FlatOpt(cs[..i + 1]) == FlatOpt(cs[..i]) + if cs[i].Some? then [cs[i].value] else []
  {
    assert cs[..i + 1][..i] == cs[..i];
  }

  lemma FlatStep(ts: seq<Target>, i: nat)
    requires i < |ts|
    ensures Flat(ts[..i + 1]) == Flat(ts[..i]) + FlatTarget(ts[i])
  {
    assert ts[..i + 1][..i] == ts[..i];
  }

  /** `altmark`: all channels of an array, after those of l. */
  method AltMark(cs: seq<Option<Channel>>, p: Prog, ghost us: set<Channel>, ghost q: Snap, ghost l0: seq<Channel>,
                 ghost rdy: set<Channel>) returns (nrdy: nat, ghost l: seq<Channel>)
    requires Within(FlatOpt(cs), us) && Queued(us, q, p, [], l0)
    requires forall c <- us :: c in rdy <==> c.Sends()
    modifies us`recv
    ensures l == l0 + FlatOpt(cs) && Queued(us, q, p, [], l)
    ensures In(l, rdy) == In(l0, rdy) + nrdy
  {
    hide Queued, In, FlatOpt;
    nrdy, l := 0, l0;
    FlatOptNone();
    for i := 0 to |cs|
      invariant l == l0 + FlatOpt(cs[..i]) && Queued(us, q, p, [], l)
      invariant In(l, rdy) == In(l0, rdy) + nrdy
    {
      FlatOptStep(cs, i);
      if cs[i].Some? {
        FlatOptIn(cs, i);
        var n := MarkRecv(cs[i].value, p, us, q, l, rdy);
        nrdy := nrdy + n;
        l := l + [cs[i].value];
      }
    }
    assert cs[..|cs|] == cs;
  }

  lemma FlatOptNone()
    ensures FlatOpt([]) == []
  {
  }

  lemma {:induction false} FlatOptIn(cs: seq<Option<Channel>>, i: nat)
    requires i < |cs| && cs[i].Some?
    ensures cs[i].value in FlatOpt(cs)
  {
    if i < |cs| - 1 { FlatOptIn(cs[..|cs| - 1], i); }
  }

  datatype Exception = ExNilref | ExAlt

  /** Some entry is the nil channel. */
  ghost predicate HasNil(a: Alt, i: nat, j: nat)
    requires i <= |a.recvs| && j <= |a.sends|
  {
    (exists k :: 0 <= k < i && a.recvs[k].NoChan?) || (exists k :: 0 <= k < j && a.sends[k].None?)
  }

  /** The alt receives from c, too, and nobody else waits there to receive. */
  predicate Itself(a: Alt, r: map<Channel, seq<Prog>>, c: Channel) {
    c in r && r[c] == [] && c in Flat(a.recvs)
  }

  /** The last fault among the first i send entries. */
  function BadSend(a: Alt, r: map<Channel, seq<Prog>>, i: nat): Option<Exception>
    requires i <= |a.sends|
  {
    if i == 0 then None
    else if a.sends[i - 1] == None then Some(ExNilref)
    else if Itself(a, r, a.sends[i - 1].value) then Some(ExAlt)
    else BadSend(a, r, i - 1)
  }

  /** The exception altrdy raises. */
  ghost function Fault(a: Alt, r: map<Channel, seq<Prog>>): Option<Exception> {
    var e := BadSend(a, r, |a.sends|);
    if e == None && HasNil(a, |a.recvs|, 0) then Some(ExNilref) else e
  }

  /** The sends on channels where p is not the only receiver. */
  predicate Joined(a: Alt, r: map<Channel, seq<Prog>>, i: nat, ls: seq<Channel>)
    requires i <= |a.sends|
  {
    forall c <- r :: multiset(ls)[c] == if Itself(a, r, c) then 0 else multiset(FlatOpt(a.sends[..i]))[c]
  }

  /** The first loop of altrdy: the receive entries. */
  method MarkRecvs(a: Alt, p: Prog, ghost us: set<Channel>, ghost q: Snap, ghost rdy: set<Channel>)
      returns (nrdy: nat, e: Option<Exception>, ghost lr: seq<Channel>)
    requires Within(Flat(a.recvs), us) && Queued(us, q, p, [], [])
    requires forall c <- us :: c in rdy <==> c.Sends()
    modifies us`recv
    ensures lr == Flat(a.recvs) && Queued(us, q, p, [], lr)
    ensures nrdy == In(lr, rdy)
    ensures e == if HasNil(a, |a.recvs|, 0) then Some(ExNilref) else None
  {
    hide Queued, In, Flat, FlatTarget;
    nrdy, e, lr := 0, None, [];
    FlatNone(rdy);
    for i := 0 to |a.recvs|
      invariant lr == Flat(a.recvs[..i]) && Queued(us, q, p, [], lr)
      invariant nrdy == In(lr, rdy)
      invariant e == if HasNil(a, i, 0) then Some(ExNilref) else None
    {
      FlatStep(a.recvs, i);
      TargetIs(a.recvs[i]);
      FlatIn(a.recvs, i);
      match a.recvs[i]
      case NoChan =>
        e := Some(ExNilref);
      case One(c) =>
        var n := MarkRecv(c, p, us, q, lr, rdy);
        nrdy, lr := nrdy + n, lr + [c];
      case Many(cs) =>
        var n;
        n, lr := AltMark(cs, p, us, q, lr, rdy);
        nrdy := nrdy + n;
    }
    assert a.recvs[..|a.recvs|] == a.recvs;
  }

  lemma FlatNone(rdy: set<Channel>)
    ensures Flat([]) == [] && In([], rdy) == 0
  {
  }

  lemma TargetIs(t: Target)
    ensures FlatTarget(t) == match t case NoChan => [] case One(c) => [c] case Many(cs) => FlatOpt(cs)
  {
  }

  lemma {:induction false} FlatIn(ts: seq<Target>, i: nat)
    requires i < |ts|
    ensures forall c <- FlatTarget(ts[i]) :: c in Flat(ts)
    decreases |ts|
  {
    if i < |ts| - 1 { FlatIn(ts[..|ts| - 1], i); }
  }

  /** One send entry: count it and wait on it, unless p is the receiver there. */
  method MarkSend(c: Channel, p: Prog, ghost us: set<Channel>, ghost q: Snap, ghost ls: seq<Channel>, ghost lr: seq<Channel>,
                  ghost rdy: set<Channel>) returns (n: nat, self: bool)
    requires c in us && Queued(us, q, p, ls, lr) && Absent(q, p)
    requires c in rdy <==> q.r[c] != [] || c.CanPut()
    modifies us`send
    ensures self <==> q.r[c] == [] && c in lr
    ensures if self then Queued(us, q, p, ls, lr) else Queued(us, q, p, ls + [c], lr)
    ensures !self ==> In(ls + [c], rdy) == In(ls, rdy) + n
  {
    OneMore(ls, c, rdy);
    CopiesMore(q.s[c], p, multiset(ls)[c]);
    HeadAfterCopies(q.r[c], p, multiset(lr)[c]);
    assert c in lr <==> multiset(lr)[c] > 0;
    hide In, Copies;
    n, self := 0, false;
    if c.Receives() {
      if c.recv.progs != [] && c.recv.progs[0] == p {
        self := true;
        return;
      }
      n := 1;
    }
    c.send := Q(c.send.progs + [p]);
  }

  /** The channels a sender would not have waited for before the alt. */
  ghost predicate SendReady(us: set<Channel>, q: Snap, rdy: set<Channel>)
    reads us`size
  {
    us == q.r.Keys && forall c <- us :: c in rdy <==> q.r[c] != [] || c.CanPut()
  }

  /** The second loop of altrdy: the send entries. */
  method MarkSends(a: Alt, p: Prog, ghost us: set<Channel>, ghost q: Snap, ghost lr: seq<Channel>, ghost rdy: set<Channel>)
      returns (nrdy: nat, e: Option<Exception>, ghost ls: seq<Channel>)
    requires Within(FlatOpt(a.sends), us) && Queued(us, q, p, [], lr) && lr == Flat(a.recvs) && Absent(q, p)
    requires SendReady(us, q, rdy)
    modifies us`send
    ensures Queued(us, q, p, ls, lr) && Within(ls, us)
    ensures e == BadSend(a, q.r, |a.sends|) && Joined(a, q.r, |a.sends|, ls)
    ensures e == None ==> ls == FlatOpt(a.sends) && nrdy == In(ls, rdy)
  {
    hide Queued, In, FlatOpt, Flat, Absent, Joined;
    nrdy, e, ls := 0, None, [];
    JoinedNone(a, q.r);
    FlatNone(rdy);
    for i := 0 to |a.sends|
      invariant Queued(us, q, p, ls, lr) && Within(ls, us) && SendReady(us, q, rdy)
      invariant e == BadSend(a, q.r, i) && Joined(a, q.r, i, ls)
      invariant e == None ==> ls == FlatOpt(a.sends[..i]) && nrdy == In(ls, rdy)
    {
      FlatOptStep(a.sends, i);
      JoinedStep(a, q.r, i, ls);
      if a.sends[i] == None {
        e := Some(ExNilref);
        assert FlatOpt(a.sends[..i]) + [] == FlatOpt(a.sends[..i]);
      } else {
        var c := a.sends[i].value;
        FlatOptIn(a.sends, i);
        var n, self := MarkSend(c, p, us, q, ls, lr, rdy);
        if self {
          e := Some(ExAlt);
        } else {
          nrdy, ls := nrdy + n, ls + [c];
        }
      }
    }
    assert a.sends[..|a.sends|] == a.sends;
  }

  lemma JoinedNone(a: Alt, r: map<Channel, seq<Prog>>)
    ensures Joined(a, r, 0, []) && FlatOpt(a.sends[..0]) == []
  {
  }

  lemma JoinedStep(a: Alt, r: map<Channel, seq<Prog>>, i: nat, ls: seq<Channel>)
    requires i < |a.sends| && Joined(a, r, i, ls)
    ensures a.sends[i] == None || Itself(a, r, a.sends[i].value) ==> Joined(a, r, i + 1, ls)
    ensures a.sends[i].Some? && !Itself(a, r, a.sends[i].value) ==> Joined(a, r, i + 1, ls + [a.sends[i].value])
  {
    var l := FlatOpt(a.sends[..i]);
    FlatOptStep(a.sends, i);
    hide FlatOpt, Flat, Itself;
    if a.sends[i] == None {
      assert l + [] == l;
    } else {
      OneMore(l, a.sends[i].value, {});
      OneMore(ls, a.sends[i].value, {});
    }
  }

  /** When altrdy raises an exception. */
  lemma {:induction false} FaultIs(a: Alt, r: map<Channel, seq<Prog>>, i: nat)
    requires i <= |a.sends|
    ensures BadSend(a, r, i) == None <==>
            forall k :: 0 <= k < i ==> a.sends[k].Some? && !Itself(a, r, a.sends[k].value)
  {
    hide Itself;
    if i > 0 { FaultIs(a, r, i - 1); }
  }

  // ------------------------------------------------------------------
  // Pass 3

  /** The choice altdone records: the entry, and the place in its array. */
  datatype Choice = NoChoice | Chosen(n: nat, an: Option<nat>)

  /** Take p off one queue; false if the queue is no longer there. */
  method DelSend(c: Channel, p: Prog) returns (ok: bool)
    modifies c`send
    ensures ok <==> old(c.send).Q?
    ensures c.send == if ok && old(c.send).progs != [] then DelP(old(c.send).progs, p) else old(c.send)
  {
    if c.send == Nil { return false; }
    if c.send.progs != [] { c.send := DelP(c.send.progs, p); }
    return true;
  }

  method DelRecv(c: Channel, p: Prog) returns (ok: bool)
    modifies c`recv
    ensures ok <==> old(c.recv).Q?
    ensures c.recv == if ok && old(c.recv).progs != [] then DelP(old(c.recv).progs, p) else old(c.recv)
  {
    if c.recv == Nil { return false; }
    if c.recv.progs != [] { c.recv := DelP(c.recv.progs, p); }
    return true;
  }

  /** What a queue that was `q` is once p has been taken off it. */
  function Left(q: seq<Prog>, p: Prog): Queue {
    if Wiped(q, p) then Nil else Q(Without(q, p))
  }

  lemma {:induction false} WithoutTwice(q: seq<Prog>, p: Prog)
    ensures Without(Without(q, p), p) == Without(q, p)
  {
    if q != [] {
      WithoutTwice(q[..|q| - 1], p);
    }
  }

  lemma DelPIs(q: seq<Prog>, p: Prog)
    ensures (if q != [] then DelP(q, p) else Q(q)) == Left(q, p)
  {
    if |q| == 1 { WithoutOne(q[0], p); }
    hide Without;
    if q == [] { WithoutAbsent(q, p); }
  }

  lemma WithoutOne(x: Prog, p: Prog)
    ensures Without([x], p) == if x == p then [] else [x]
  {
    assert [x][..0] == [];
  }

  lemma DelPIsLeft(q: seq<Prog>, p: Prog)
    ensures (if q != [] then DelP(q, p) else Q(q)) == Left(q, p)
    ensures !Wiped(q, p) ==> Left(Without(q, p), p) == Left(q, p)
  {
    DelPIs(q, p);
    WithoutTwice(q, p);
    hide Without, DelP;
    if |q| < 2 && Without(q, p) != [] { WithoutShort(q, p); }
    if q == [] { WithoutAbsent(q, p); }
  }

  lemma {:induction false} WithoutShort(q: seq<Prog>, p: Prog)
    ensures |Without(q, p)| <= |q|
  {
    if q != [] { WithoutShort(q[..|q| - 1], p); }
  }

  /** p has been taken off the queues of ls and lr, which were as in q. */
  ghost predicate Unqueued(us: set<Channel>, q: Snap, p: Prog, ls: seq<Channel>, lr: seq<Channel>)
    reads us`send, us`recv
  {
    && q.s.Keys == us && q.r.Keys == us
    && forall c <- us ::
         && c.send == (if c in ls then Left(q.s[c], p) else Q(q.s[c]))
         && c.recv == (if c in lr then Left(q.r[c], p) else Q(q.r[c]))
  }

  /** No queue that p alone fills is visited twice. */
  ghost predicate Visitable(q: map<Channel, seq<Prog>>, p: Prog, l: seq<Channel>) {
    forall c <- q :: multiset(l)[c] >= 2 ==> !Wiped(q[c], p)
  }

  lemma VisitOne(q: map<Channel, seq<Prog>>, p: Prog, l: seq<Channel>, c: Channel)
    requires c in q && Visitable(q, p, l)
    ensures Visitable(q, p, l + [c]) <==> !(c in l && Wiped(q[c], p))
  {
    OneMore(l, c, {});
    assert c in l <==> multiset(l)[c] >= 1;
  }

  lemma VisitPrefix(q: map<Channel, seq<Prog>>, p: Prog, l: seq<Channel>, m: seq<Channel>)
    requires !Visitable(q, p, l)
    ensures !Visitable(q, p, l + m)
  {
    assert multiset(l + m) == multiset(l) + multiset(m);
    var c :| c in q && multiset(l)[c] >= 2 && Wiped(q[c], p);
    assert multiset(l + m)[c] >= 2;
  }

  /** The first place of an array that is channel x, from i on. */
  function FirstOpt(cs: seq<Option<Channel>>, x: Channel, i: nat): int
    decreases |cs| - i
  {
    if i >= |cs| then -1 else if cs[i] == Some(x) then i else FirstOpt(cs, x, i + 1)
  }

  /** The first receive entry, and place in its array, that is channel x. */
  function FirstRecv(ts: seq<Target>, x: Channel, i: nat, base: nat): Choice
    decreases |ts| - i
  {
    if i >= |ts| then NoChoice
    else
      match ts[i]
      case NoChan => FirstRecv(ts, x, i + 1, base)
      case One(c) => if c == x then Chosen(base + i, None) else FirstRecv(ts, x, i + 1, base)
      case Many(cs) =>
        var k := FirstOpt(cs, x, 0);
        if k >= 0 then Chosen(base + i, Some(k)) else FirstRecv(ts, x, i + 1, base)
  }

  method UnqueueSend(c: Channel, p: Prog, ghost us: set<Channel>, ghost q: Snap, ghost ls: seq<Channel>, ghost lr: seq<Channel>)
      returns (ok: bool)
    requires c in us && Unqueued(us, q, p, ls, lr) && Visitable(q.s, p, ls)
    modifies us`send
    ensures ok <==> Visitable(q.s, p, ls + [c])
    ensures ok ==> Unqueued(us, q, p, ls + [c], lr)
  {
    VisitOne(q.s, p, ls, c);
    DelPIsLeft(q.s[c], p);
    DelPIsLeft(Without(q.s[c], p), p);
    hide Without, Wiped, DelP, Visitable;
    ok := DelSend(c, p);
  }

  method UnqueueRecv(c: Channel, p: Prog, ghost us: set<Channel>, ghost q: Snap, ghost ls: seq<Channel>, ghost lr: seq<Channel>)
      returns (ok: bool)
    requires c in us && Unqueued(us, q, p, ls, lr) && Visitable(q.r, p, lr)
    modifies us`recv
    ensures ok <==> Visitable(q.r, p, lr + [c])
    ensures ok ==> Unqueued(us, q, p, ls, lr + [c])
  {
    VisitOne(q.r, p, lr, c);
    DelPIsLeft(q.r[c], p);
    DelPIsLeft(Without(q.r[c], p), p);
    hide Without, Wiped, DelP, Visitable;
    ok := DelRecv(c, p);
  }

  /** `altunmark`: all channels of an array; `sel` is the channel still looked
      for, and `at` the place where it is. */
  method AltUnmark(cs: seq<Option<Channel>>, p: Prog, sel0: Option<Channel>, ghost us: set<Channel>, ghost q: Snap,
                   ghost ls: seq<Channel>, ghost lr0: seq<Channel>)
      returns (ok: bool, sel: Option<Channel>, at: int, ghost lr: seq<Channel>)
    requires Within(FlatOpt(cs), us) && Unqueued(us, q, p, ls, lr0) && Visitable(q.r, p, lr0)
    modifies us`recv
    ensures ok <==> Visitable(q.r, p, lr0 + FlatOpt(cs))
    ensures ok ==> lr == lr0 + FlatOpt(cs) && Unqueued(us, q, p, ls, lr)
    ensures ok ==> at == (if sel0 == None then -1 else FirstOpt(cs, sel0.value, 0)) && sel == if at >= 0 then None else sel0
  {
    hide Unqueued, Visitable, FlatOpt;
    ok, sel, at, lr := true, sel0, -1, lr0;
    FlatOptNone();
    for n := 0 to |cs|
      invariant ok && lr == lr0 + FlatOpt(cs[..n]) && Unqueued(us, q, p, ls, lr) && Visitable(q.r, p, lr)
      invariant sel == if at >= 0 then None else sel0
      invariant -1 <= at < n
      invariant sel0.Some? ==> FirstOpt(cs, sel0.value, 0) == if at >= 0 then at else FirstOpt(cs, sel0.value, n)
      invariant sel0 == None ==> at == -1
    {
      FlatOptStep(cs, n);
      if cs[n].Some? {
        FlatOptIn(cs, n);
        ok := UnqueueRecv(cs[n].value, p, us, q, ls, lr);
        if !ok {
          FlatOptSplit(cs, n);
          VisitPrefix(q.r, p, lr + [cs[n].value], FlatOpt(cs[n + 1..]));
          assert lr + [cs[n].value] + FlatOpt(cs[n + 1..]) == lr0 + FlatOpt(cs);
          return;
        }
        lr := lr + [cs[n].value];
        if sel == cs[n] {
          at, sel := n, None;
        }
      }
    }
    assert cs[..|cs|] == cs;
  }

  lemma {:induction false} FlatOptSplit(cs: seq<Option<Channel>>, n: nat)
    requires n < |cs| && cs[n].Some?
    ensures FlatOpt(cs) == FlatOpt(cs[..n]) + [cs[n].value] + FlatOpt(cs[n + 1..])
    decreases |cs|
  {
    if n == |cs| - 1 {
      assert cs[n + 1..] == [];
    } else {
      var d := cs[..|cs| - 1];
      FlatOptSplit(d, n);
      assert d[..n] == cs[..n] && d[n + 1..] == cs[n + 1..][..|cs| - n - 2];
    }
  }

  lemma {:induction false} FlatSplit(ts: seq<Target>, n: nat)
    requires n < |ts|
    ensures Flat(ts) == Flat(ts[..n]) + FlatTarget(ts[n]) + Flat(ts[n + 1..])
    decreases |ts|
  {
    hide FlatTarget;
    var k := |ts| - 1;
    if n == k {
      assert ts[n + 1..] == [];
    } else {
      var d, u := ts[..k], ts[n + 1..];
      FlatSplit(d, n);
      assert d[..n] == ts[..n] && d[n + 1..] == u[..|u| - 1];
      var f := FlatTarget(u[|u| - 1]);
      assert Flat(u) == Flat(d[n + 1..]) + f && Flat(ts) == Flat(d) + f;
    }
  }

  /** The first loop of altdone: the send entries; `sel` is the channel sent
      on, if that is what is looked for. */
  method DoneSends(a: Alt, p: Prog, sel: Option<Channel>, ghost us: set<Channel>, ghost q: Snap)
      returns (ok: bool, at: int)
    requires Within(FlatOpt(a.sends), us) && Unqueued(us, q, p, [], [])
    modifies us`send
    ensures ok <==> Visitable(q.s, p, FlatOpt(a.sends))
    ensures ok ==> Unqueued(us, q, p, FlatOpt(a.sends), [])
    ensures ok ==> at == if sel == None then -1 else FirstOpt(a.sends, sel.value, 0)
  {
    ok, at := true, -1;
    var cs := a.sends;
    FlatOptNone();
    VisitNone(q.s, p);
    hide Unqueued, Visitable, FlatOpt;
    for n := 0 to |cs|
      invariant ok && Unqueued(us, q, p, FlatOpt(cs[..n]), []) && Visitable(q.s, p, FlatOpt(cs[..n]))
      invariant -1 <= at < n
      invariant sel.Some? ==> FirstOpt(cs, sel.value, 0) == if at >= 0 then at else FirstOpt(cs, sel.value, n)
      invariant sel == None ==> at == -1
    {
      FlatOptStep(cs, n);
      if cs[n].Some? {
        FlatOptIn(cs, n);
        ghost var ls := FlatOpt(cs[..n]);
        ok := UnqueueSend(cs[n].value, p, us, q, ls, []);
        if !ok {
          FlatOptSplit(cs, n);
          VisitPrefix(q.s, p, ls + [cs[n].value], FlatOpt(cs[n + 1..]));
          return;
        }
        if sel == cs[n] && at < 0 {
          at := n;
        }
      } else {
        assert FlatOpt(cs[..n]) + [] == FlatOpt(cs[..n]);
      }
    }
    assert cs[..|cs|] == cs;
  }

  lemma VisitNone(q: map<Channel, seq<Prog>>, p: Prog)
    ensures Visitable(q, p, [])
  {
  }

  /** The second loop of altdone: the receive entries, numbered after the
      others. */
  method DoneRecvs(a: Alt, p: Prog, sel0: Option<Channel>, ghost us: set<Channel>, ghost q: Snap)
      returns (ok: bool, choice: Choice)
    requires Within(Flat(a.recvs), us) && Unqueued(us, q, p, FlatOpt(a.sends), [])
    modifies us`recv
    ensures ok <==> Visitable(q.r, p, Flat(a.recvs))
    ensures ok ==> Unqueued(us, q, p, FlatOpt(a.sends), Flat(a.recvs))
    ensures ok ==> choice == if sel0 == None then NoChoice else FirstRecv(a.recvs, sel0.value, 0, |a.sends|)
  {
    ok, choice := true, NoChoice;
    var sel, ts := sel0, a.recvs;
    ghost var ls := FlatOpt(a.sends);
    FlatNone({});
    VisitNone(q.r, p);
    hide Unqueued, Visitable, FlatOpt, Flat, FlatTarget, FirstOpt;
    for n := 0 to |ts|
      invariant ok && Unqueued(us, q, p, ls, Flat(ts[..n])) && Visitable(q.r, p, Flat(ts[..n]))
      invariant sel == if choice == NoChoice then sel0 else None
      invariant sel0.Some? ==>
                  FirstRecv(ts, sel0.value, 0, |a.sends|) == if choice == NoChoice then FirstRecv(ts, sel0.value, n, |a.sends|)
                      else choice
      invariant sel0 == None ==> choice == NoChoice
    {
      ghost var lr := Flat(ts[..n]);
      FlatStep(ts, n);
      FlatIn(ts, n);
      TargetIs(ts[n]);
      FlatSplit(ts, n);
      match ts[n]
      case NoChan =>
        assert lr + [] == lr;
      case One(c) =>
        ok := UnqueueRecv(c, p, us, q, ls, lr);
        if !ok {
          VisitPrefix(q.r, p, lr + [c], Flat(ts[n + 1..]));
          return;
        }
        if sel == Some(c) {
          choice, sel := Chosen(|a.sends| + n, None), None;
        }
      case Many(cs) =>
        var at;
        ghost var l;
        ok, sel, at, l := AltUnmark(cs, p, sel, us, q, ls, lr);
        if !ok {
          VisitPrefix(q.r, p, lr + FlatOpt(cs), Flat(ts[n + 1..]));
          return;
        }
        if at >= 0 {
          choice := Chosen(|a.sends| + n, Some(at));
        }
    }
    assert ts[..|ts|] == ts;
  }

  /** What altdone tells the program about the channel that served it: the
      first entry, and place in it, that is the channel. */
  function Report(a: Alt, sel: Option<Channel>, sr: int): Choice {
    if sel == None then NoChoice
    else if sr == 0 then
      var k := FirstOpt(a.sends, sel.value, 0);
      if k >= 0 then Chosen(k, None) else NoChoice
    else if sr == 1 then FirstRecv(a.recvs, sel.value, 0, |a.sends|)
    else NoChoice
  }

  /** `altdone`: take p off every queue of the alt.  It fails, with a null
      pointer, exactly when it visits a queue again that p alone had filled
      with two nodes or more. */
  method AltDone(a: Alt, p: Prog, sel: Option<Channel>, sr: int, ghost us: set<Channel>, ghost q: Snap)
      returns (ok: bool, choice: Choice)
    requires Within(FlatOpt(a.sends), us) && Within(Flat(a.recvs), us) && Unqueued(us, q, p, [], [])
    modifies us`send, us`recv
    ensures ok <==> Visitable(q.s, p, FlatOpt(a.sends)) && Visitable(q.r, p, Flat(a.recvs))
    ensures ok ==> Unqueued(us, q, p, FlatOpt(a.sends), Flat(a.recvs))
    ensures ok ==> choice == Report(a, sel, sr)
  {
    hide Unqueued, Visitable, FlatOpt, Flat;
    choice := NoChoice;
    var at;
    ok, at := DoneSends(a, p, if sr == 0 then sel else None, us, q);
    if !ok { return; }
    var there;
    ok, there := DoneRecvs(a, p, if sr == 1 then sel else None, us, q);
    choice := if at >= 0 then Chosen(at, None) else there;
  }

  // ------------------------------------------------------------------
  // Pass 2

  /** An entry of the alt: its number, its place in an array, its channel. */
  datatype Pick = Pick(c: Channel, sending: bool, n: nat, an: Option<nat>)

  /** k is the ready entry before which there are `which` ready ones: first the
      send entries, on the channels of rs, and then the others, on those of rr. */
  ghost predicate Picks(a: Alt, rs: set<Channel>, rr: set<Channel>, which: int, k: Pick) {
    if k.sending then
      k.n < |a.sends| && a.sends[k.n] == Some(k.c) && k.c in rs && k.an == None && In(FlatOpt(a.sends[..k.n]), rs) == which
    else
      && |a.sends| <= k.n < |a.sends| + |a.recvs|
      && var i, w := k.n - |a.sends|, which - In(FlatOpt(a.sends), rs);
      PicksIn(a.recvs[i], rr, w - In(Flat(a.recvs[..i]), rr), k.c, k.an)
  }

  /** Within one receive entry. */
  ghost predicate PicksIn(t: Target, rr: set<Channel>, which: int, c: Channel, an: Option<nat>) {
    && c in rr
    && match t
       case NoChan => false
       case One(d) => c == d && an == None && which == 0
       case Many(cs) => an.Some? && an.value < |cs| && cs[an.value] == Some(c) && In(FlatOpt(cs[..an.value]), rr) == which
  }

  lemma InOpt(cs: seq<Option<Channel>>, r: set<Channel>, i: nat)
    requires i < |cs|
    ensures In(FlatOpt(cs[..i + 1]), r) == In(FlatOpt(cs[..i]), r) + if cs[i].Some? && cs[i].value in r then 1 else 0
    ensures In(FlatOpt(cs[..i + 1]), r) <= In(FlatOpt(cs), r)
  {
    FlatOptStep(cs, i);
    if cs[i].Some? {
      OneMore(FlatOpt(cs[..i]), cs[i].value, r);
      FlatOptSplit(cs, i);
      InJoin(FlatOpt(cs[..i]) + [cs[i].value], FlatOpt(cs[i + 1..]), r);
    } else {
      assert FlatOpt(cs[..i]) + [] == FlatOpt(cs[..i]);
      InOptMonotone(cs, r, i + 1);
    }
  }

  lemma {:induction false} InOptMonotone(cs: seq<Option<Channel>>, r: set<Channel>, i: nat)
    requires i <= |cs|
    ensures In(FlatOpt(cs[..i]), r) <= In(FlatOpt(cs), r)
    decreases |cs|
  {
    if i == |cs| {
      assert cs[..i] == cs;
    } else {
      var d := cs[..|cs| - 1];
      InOptMonotone(d, r, i);
      assert d[..i] == cs[..i];
      InJoin(FlatOpt(d), if cs[|cs| - 1].Some? then [cs[|cs| - 1].value] else [], r);
    }
  }

  lemma InFlat(ts: seq<Target>, r: set<Channel>, i: nat)
    requires i < |ts|
    ensures In(Flat(ts[..i + 1]), r) == In(Flat(ts[..i]), r) + In(FlatTarget(ts[i]), r)
    ensures In(Flat(ts[..i + 1]), r) <= In(Flat(ts), r)
  {
    hide FlatTarget, In;
    FlatStep(ts, i);
    InJoin(Flat(ts[..i]), FlatTarget(ts[i]), r);
    FlatSplit(ts, i);
    InJoin(Flat(ts[..i + 1]), Flat(ts[i + 1..]), r);
  }

  /** The search of one array: `w` counts down over the ready channels. */
  method CommIn(cs: seq<Option<Channel>>, which: int, ghost us: set<Channel>, ghost rr: set<Channel>)
      returns (w: int, found: Option<(Channel, nat)>)
    requires Within(FlatOpt(cs), us) && which >= 0
    requires forall c <- us :: c in rr <==> c.Sends()
    ensures found.None? ==> w == which - In(FlatOpt(cs), rr) >= 0
    ensures found.Some? ==> PicksIn(Many(cs), rr, which, found.value.0, Some(found.value.1))
    ensures found.Some? ==> which < In(FlatOpt(cs), rr)
  {
    hide In, FlatOpt;
    w, found := which, None;
    InNone(rr);
    for i := 0 to |cs|
      invariant w == which - In(FlatOpt(cs[..i]), rr) >= 0
    {
      InOpt(cs, rr, i);
      if cs[i].Some? {
        FlatOptIn(cs, i);
        var c := cs[i].value;
        if c.Sends() {
          if w == 0 {
            found := Some((c, i));
            return;
          }
          w := w - 1;
        }
      }
    }
    assert cs[..|cs|] == cs;
  }

  lemma InNone(r: set<Channel>)
    ensures In([], r) == 0 && Flat([]) == [] && FlatOpt([]) == []
  {
  }

  /** The channels on which a sender, or a receiver, would not wait. */
  ghost predicate Readies(us: set<Channel>, rs: set<Channel>, rr: set<Channel>)
    reads us
  {
    forall c <- us :: (c in rr <==> c.Sends()) && (c in rs <==> c.Receives())
  }

  /** `altcomm`, as far as the choice of the entry goes: any number below that
      of the ready entries finds one, and no other. */
  method AltComm(a: Alt, which: nat, ghost us: set<Channel>, ghost rs: set<Channel>, ghost rr: set<Channel>)
      returns (k: Option<Pick>)
    requires Within(FlatOpt(a.sends), us) && Within(Flat(a.recvs), us)
    requires !HasNil(a, |a.recvs|, |a.sends|)
    requires Readies(us, rs, rr)
    ensures k.Some? <==> which < In(FlatOpt(a.sends), rs) + In(Flat(a.recvs), rr)
    ensures k.Some? ==> Picks(a, rs, rr, which, k.value)
  {
    hide In, FlatOpt, Flat, FlatTarget;
    var w: int := which;
    k := None;
    InNone(rs);
    InNone(rr);
    for n := 0 to |a.sends|
      invariant w == which - In(FlatOpt(a.sends[..n]), rs) >= 0
    {
      InOpt(a.sends, rs, n);
      FlatOptIn(a.sends, n);
      var c := a.sends[n].value;
      if c.Receives() {
        if w == 0 {
          k := Some(Pick(c, true, n, None));
          return;
        }
        w := w - 1;
      }
    }
    assert a.sends[..|a.sends|] == a.sends;
    var w0 := w;
    for n := 0 to |a.recvs|
      invariant w == w0 - In(Flat(a.recvs[..n]), rr) >= 0
    {
      InFlat(a.recvs, rr, n);
      FlatIn(a.recvs, n);
      TargetIs(a.recvs[n]);
      assert !a.recvs[n].NoChan?;
      match a.recvs[n]
      case Many(cs) =>
        var found;
        w, found := CommIn(cs, w, us, rr);
        if found.Some? {
          k := Some(Pick(found.value.0, false, |a.sends| + n, Some(found.value.1)));
          return;
        }
      case One(c) =>
        InOne(c, rr);
        if c.Sends() {
          if w == 0 {
            k := Some(Pick(c, false, |a.sends| + n, None));
            return;
          }
          w := w - 1;
        }
    }
    assert a.recvs[..|a.recvs|] == a.recvs;
  }

  lemma InOne(c: Channel, r: set<Channel>)
    ensures In([c], r) == if c in r then 1 else 0
  {
    assert [c][..0] == [];
  }

  // ------------------------------------------------------------------
  // The whole statement

  /** The queues are those of the snapshot. */
  ghost predicate Calm(us: set<Channel>, q: Snap)
    reads us`send, us`recv
  {
    q.s.Keys == us && q.r.Keys == us && forall c <- us :: c.send == Q(q.s[c]) && c.recv == Q(q.r[c])
  }

  /** The snapshot with p added for each place of ls and lr. */
  ghost function Marked(q: Snap, p: Prog, ls: seq<Channel>, lr: seq<Channel>): Snap {
    Snap(Plus(q.s, p, ls), Plus(q.r, p, lr))
  }

  ghost function Plus(q: map<Channel, seq<Prog>>, p: Prog, l: seq<Channel>): (m: map<Channel, seq<Prog>>)
    ensures m.Keys == q.Keys && forall c <- q :: m[c] == q[c] + Copies(p, multiset(l)[c])
  {
    map c | c in q :: q[c] + Copies(p, multiset(l)[c])
  }

  /** p joins some empty queue twice. */
  ghost predicate Twice(q: map<Channel, seq<Prog>>, l: seq<Channel>) {
    exists c :: c in q && q[c] == [] && multiset(l)[c] >= 2
  }

  lemma MarkedIs(us: set<Channel>, q: Snap, p: Prog, ls: seq<Channel>, lr: seq<Channel>)
    requires Queued(us, q, p, ls, lr)
    ensures Unqueued(us, Marked(q, p, ls, lr), p, [], [])
  {
    hide Copies;
  }

  lemma MarkedParts(q: Snap, p: Prog, ls: seq<Channel>, lr: seq<Channel>)
    ensures Marked(q, p, ls, lr).s == Plus(q.s, p, ls) && Marked(q, p, ls, lr).r == Plus(q.r, p, lr)
  {
    hide Plus;
  }

  lemma CalmIsQueued(us: set<Channel>, q: Snap, p: Prog)
    requires Calm(us, q)
    ensures Queued(us, q, p, [], [])
  {
    forall c | c in us ensures q.s[c] + Copies(p, 0) == q.s[c] && q.r[c] + Copies(p, 0) == q.r[c] {}
  }

  /** Copies at the end of a queue come off again, and only an empty queue
      that took two is gone with them. */
  lemma WipedCopies(q: seq<Prog>, p: Prog, k: nat)
    requires p !in q
    ensures Wiped(q + Copies(p, k), p) <==> q == [] && k >= 2
    ensures !Wiped(q + Copies(p, k), p) ==> Left(q + Copies(p, k), p) == Q(q)
  {
    WithoutCopies(q, p, k);
  }

  /** The list that p joined, l, is one of those places visited, all. */
  lemma VisitableCopies(q: map<Channel, seq<Prog>>, p: Prog, l: seq<Channel>, all: seq<Channel>)
    requires forall c <- q :: p !in q[c] && multiset(l)[c] <= multiset(all)[c]
    ensures Visitable(Plus(q, p, l), p, all) <==> !Twice(q, l)
  {
    hide Wiped, Copies, Plus;
    var m := Plus(q, p, l);
    forall c | c in q
      ensures Wiped(m[c], p) <==> q[c] == [] && multiset(l)[c] >= 2
    {
      WipedCopies(q[c], p, multiset(l)[c]);
    }
    if Twice(q, l) {
      var c :| c in q && q[c] == [] && multiset(l)[c] >= 2;
      assert c in m && Wiped(m[c], p) && multiset(all)[c] >= 2;
    }
  }

  /** What altdone leaves of the queues altrdy has marked. */
  lemma CalmAgain(us: set<Channel>, q: Snap, p: Prog, ls: seq<Channel>, lr: seq<Channel>, alls: seq<Channel>, allr: seq<Channel>)
    requires Unqueued(us, Marked(q, p, ls, lr), p, alls, allr) && Absent(q, p)
    requires Fewer(us, ls, alls) && Fewer(us, lr, allr)
    requires !Twice(q.s, ls) && !Twice(q.r, lr)
    ensures Calm(us, q)
  {
    hide Left, Wiped, Copies;
    forall c | c in us
      ensures c.send == Q(q.s[c]) && c.recv == Q(q.r[c])
    {
      WipedCopies(q.s[c], p, multiset(ls)[c]);
      WipedCopies(q.r[c], p, multiset(lr)[c]);
      CopiesNone(q.s[c], p);
      CopiesNone(q.r[c], p);
      assert c in alls || multiset(ls)[c] == 0;
      assert c in allr || multiset(lr)[c] == 0;
    }
  }

  lemma CopiesNone(q: seq<Prog>, p: Prog)
    ensures q + Copies(p, 0) == q
  {
  }

  lemma CalmKeys(us: set<Channel>, q: Snap)
    requires Calm(us, q)
    ensures q.s.Keys == us == q.r.Keys
  {
  }

  lemma SendReadyHolds(us: set<Channel>, q: Snap, rs: set<Channel>)
    requires Calm(us, q) && forall c <- us :: c in rs <==> c.Receives()
    ensures SendReady(us, q, rs)
  {
  }

  /** l has no more of any channel than m. */
  ghost predicate Fewer(us: set<Channel>, l: seq<Channel>, m: seq<Channel>) {
    forall c <- us :: multiset(l)[c] <= multiset(m)[c]
  }

  lemma FewerThanItself(us: set<Channel>, l: seq<Channel>)
    ensures Fewer(us, l, l)
  {
  }

  lemma JoinedFewer(a: Alt, r: map<Channel, seq<Prog>>, ls: seq<Channel>)
    requires Joined(a, r, |a.sends|, ls)
    ensures Fewer(r.Keys, ls, FlatOpt(a.sends))
  {
    hide FlatOpt, Itself;
    assert a.sends[..|a.sends|] == a.sends;
  }

  /** altdone after altrdy fails exactly when p joined an empty queue twice. */
  lemma MarkedVisitable(a: Alt, q: Snap, p: Prog, ls: seq<Channel>)
    requires Absent(q, p) && Fewer(q.s.Keys, ls, FlatOpt(a.sends)) && q.s.Keys == q.r.Keys
    ensures Visitable(Plus(q.s, p, ls), p, FlatOpt(a.sends)) <==> !Twice(q.s, ls)
    ensures Visitable(Plus(q.r, p, Flat(a.recvs)), p, Flat(a.recvs)) <==> !Twice(q.r, Flat(a.recvs))
  {
    hide FlatOpt, Flat, Visitable, Twice, Copies, Plus;
    VisitableCopies(q.s, p, ls, FlatOpt(a.sends));
    VisitableCopies(q.r, p, Flat(a.recvs), Flat(a.recvs));
  }

  /** altdone when nothing has been sent or received since altrdy. */
  method Undo(a: Alt, p: Prog, ghost us: set<Channel>, ghost q: Snap, ghost ls: seq<Channel>)
      returns (ok: bool)
    requires Within(FlatOpt(a.sends), us) && Within(Flat(a.recvs), us) && Absent(q, p)
    requires Queued(us, q, p, ls, Flat(a.recvs)) && Fewer(us, ls, FlatOpt(a.sends))
    modifies us`send, us`recv
    ensures ok <==> !Twice(q.s, ls) && !Twice(q.r, Flat(a.recvs))
    ensures ok ==> Calm(us, q)
  {
    assert q.s.Keys == us == q.r.Keys;
    hide Queued, FlatOpt, Flat, Absent, Fewer, Calm, Visitable, Plus, Twice, Unqueued;
    ghost var lr := Flat(a.recvs);
    MarkedIs(us, q, p, ls, lr);
    MarkedVisitable(a, q, p, ls);
    var choice;
    ok, choice := AltDone(a, p, None, -1, us, Marked(q, p, ls, lr));
    if ok {
      FewerThanItself(us, lr);
      CalmAgain(us, q, p, ls, lr, FlatOpt(a.sends), lr);
    }
  }

  datatype Ready = Ready(nrdy: nat) | Raised(e: Exception) | Crashed

  /** `altrdy`: either the ready entries are counted and p waits on all
      channels, or nothing is changed and an exception is raised.  A null
      pointer is followed exactly when there is a fault and p joined an empty
      queue twice. */
  method AltRdy(a: Alt, p: Prog, ghost us: set<Channel>, ghost q: Snap, ghost rs: set<Channel>, ghost rr: set<Channel>)
      returns (out: Ready, ghost ls: seq<Channel>)
    requires Within(FlatOpt(a.sends), us) && Within(Flat(a.recvs), us) && Calm(us, q) && Absent(q, p)
    requires Readies(us, rs, rr)
    modifies us`send, us`recv
    ensures Joined(a, q.r, |a.sends|, ls)
    ensures Fault(a, q.r) == None ==>
              && ls == FlatOpt(a.sends) && Queued(us, q, p, ls, Flat(a.recvs))
              && out == Ready(In(ls, rs) + In(Flat(a.recvs), rr))
    ensures Fault(a, q.r).Some? ==>
              out == if Twice(q.s, ls) || Twice(q.r, Flat(a.recvs)) then Crashed else Raised(Fault(a, q.r).value)
    ensures out.Raised? ==> Calm(us, q)
  {
    CalmIsQueued(us, q, p);
    CalmKeys(us, q);
    ReceiveReady(us, rs, rr);
    SendReadyHolds(us, q, rs);
    hide *;
    var n, e, m, f;
    ghost var lr;
    n, e, lr := MarkRecvs(a, p, us, q, rr);
    m, f, ls := MarkSends(a, p, us, q, lr, rs);
    FaultOf(a, q.r, e, f);
    if e == None && f == None {
      out := Ready(n + m);
    } else {
      JoinedFewer(a, q.r, ls);
      var ok := Undo(a, p, us, q, ls);
      out := if ok then Raised(if f.Some? then f.value else e.value) else Crashed;
    }
  }

  lemma ReceiveReady(us: set<Channel>, rs: set<Channel>, rr: set<Channel>)
    requires Readies(us, rs, rr)
    ensures forall c <- us :: (c in rs <==> c.Receives()) && (c in rr <==> c.Sends())
  {
  }

  /** The fault of a send entry hides that of a receive entry. */
  lemma FaultOf(a: Alt, r: map<Channel, seq<Prog>>, e: Option<Exception>, f: Option<Exception>)
    requires e == if HasNil(a, |a.recvs|, 0) then Some(ExNilref) else None
    requires f == BadSend(a, r, |a.sends|)
    ensures Fault(a, r) == if f.Some? then f else e
  {
  }

  function SetOf(l: seq<Channel>): set<Channel> {
    set c | c in l
  }

  /** No channel is both sent on and received from, unless a receiver did not
      have to wait there before the alt. */
  predicate NoSelf(a: Alt, rr: set<Channel>) {
    forall c :: c in FlatOpt(a.sends) && c in Flat(a.recvs) ==> c in rr
  }

  /** What altcomm finds ready once p itself waits on the channels. */
  lemma ReadyNow(a: Alt, p: Prog, us: set<Channel>, q: Snap, rs: set<Channel>, rr: set<Channel>)
    requires Queued(us, q, p, FlatOpt(a.sends), Flat(a.recvs))
    requires forall c <- us :: (c in rs <==> q.r[c] != [] || c.CanPut()) && (c in rr <==> q.s[c] != [] || c.CanGet())
    ensures Readies(us, rs + SetOf(Flat(a.recvs)), rr + SetOf(FlatOpt(a.sends)))
  {
    hide FlatOpt, Flat, Copies;
    var ls: seq<Channel>, lr: seq<Channel> := FlatOpt(a.sends), Flat(a.recvs);
    forall c | c in us
      ensures c.Sends() <==> c in rr + SetOf(ls)
      ensures c.Receives() <==> c in rs + SetOf(lr)
    {
      CopiesAll(p, multiset(ls)[c]);
      CopiesAll(p, multiset(lr)[c]);
      assert c in ls <==> multiset(ls)[c] > 0;
      assert c in lr <==> multiset(lr)[c] > 0;
    }
  }

  /** The two passes count the same entries exactly when the alt does not meet
      itself: the send entries always agree. */
  lemma CountsAgree(a: Alt, q: Snap, rs: set<Channel>, rr: set<Channel>)
    requires Fault(a, q.r) == None && Within(FlatOpt(a.sends), q.r.Keys)
    requires forall c <- q.r :: q.r[c] != [] ==> c in rs
    ensures var s, r := FlatOpt(a.sends), Flat(a.recvs);
            && In(s, rs + SetOf(r)) == In(s, rs)
            && In(r, rr + SetOf(s)) >= In(r, rr)
            && (In(r, rr + SetOf(s)) == In(r, rr) <==> NoSelf(a, rr))
  {
    hide FlatOpt, Flat, In, BadSend;
    var s, r := FlatOpt(a.sends), Flat(a.recvs);
    SendsApart(a, q);
    InSub(s, rs, rs + SetOf(r));
    InSub(r, rr, rr + SetOf(s));
  }

  lemma SendsApart(a: Alt, q: Snap)
    requires Fault(a, q.r) == None
    ensures forall c <- FlatOpt(a.sends) :: !Itself(a, q.r, c)
  {
    hide FlatOpt, Itself, BadSend;
    FaultIs(a, q.r, |a.sends|);
    forall c | c in FlatOpt(a.sends) ensures !Itself(a, q.r, c) {
      var k := FlatOptHas(a.sends, c);
    }
  }

  lemma {:induction false} FlatOptHas(cs: seq<Option<Channel>>, c: Channel) returns (k: nat)
    requires c in FlatOpt(cs)
    ensures k < |cs| && cs[k] == Some(c)
  {
    if cs[|cs| - 1] == Some(c) {
      k := |cs| - 1;
    } else {
      k := FlatOptHas(cs[..|cs| - 1], c);
    }
  }

  lemma InSame(l: seq<Channel>, r: set<Channel>, t: set<Channel>)
    requires forall c <- l :: c in r <==> c in t
    ensures In(l, r) == In(l, t)
  {
    InSub(l, r, t);
  }

  lemma {:induction false} FlatOptPrefix(cs: seq<Option<Channel>>, i: nat)
    requires i <= |cs|
    ensures forall c <- FlatOpt(cs[..i]) :: c in FlatOpt(cs)
  {
    hide FlatOpt;
    forall c | c in FlatOpt(cs[..i]) ensures c in FlatOpt(cs) {
      var k := FlatOptHas(cs[..i], c);
      FlatOptIn(cs, k);
    }
  }

  lemma {:induction false} FlatPrefix(ts: seq<Target>, i: nat)
    requires i <= |ts|
    ensures forall c <- Flat(ts[..i]) :: c in Flat(ts)
    decreases |ts|
  {
    if i < |ts| {
      FlatSplit(ts, i);
    } else {
      assert ts[..i] == ts;
    }
  }

  /** Without such a meeting, the entry that altcomm picks is one that was
      ready before the alt: the same, of those, that altrdy counted. */
  lemma PickWasReady(a: Alt, rs: set<Channel>, rr: set<Channel>, which: int, k: Pick)
    requires NoSelf(a, rr) && (Picks(a, rs, rr + SetOf(FlatOpt(a.sends)), which, k) || Picks(a, rs, rr, which, k))
    ensures Picks(a, rs, rr + SetOf(FlatOpt(a.sends)), which, k) && Picks(a, rs, rr, which, k)
  {
    hide FlatOpt, Flat, In;
    var s, r := FlatOpt(a.sends), Flat(a.recvs);
    assert forall c <- r :: c in rr + SetOf(s) <==> c in rr;
    if !k.sending {
      var i := k.n - |a.sends|;
      FlatPrefix(a.recvs, i);
      FlatIn(a.recvs, i);
      InSame(Flat(a.recvs[..i]), rr + SetOf(s), rr);
      if a.recvs[i].Many? {
        var cs := a.recvs[i].cs;
        FlatOptPrefix(cs, k.an.value);
        FlatOptIn(cs, k.an.value);
        InSame(FlatOpt(cs[..k.an.value]), rr + SetOf(s), rr);
      }
    }
  }

  /** The ready entries are those of the snapshot. */
  ghost predicate ReadyAs(us: set<Channel>, q: Snap, rs: set<Channel>, rr: set<Channel>)
    reads us`size
  {
    && q.s.Keys == us == q.r.Keys
    && forall c <- us :: (c in rs <==> q.r[c] != [] || c.CanPut()) && (c in rr <==> q.s[c] != [] || c.CanGet())
  }

  lemma PickHas(a: Alt, rs: set<Channel>, rr: set<Channel>, which: int, k: Pick)
    requires Picks(a, rs, rr, which, k)
    ensures if k.sending then k.c in rs && k.c in FlatOpt(a.sends) else k.c in rr && k.c in Flat(a.recvs)
  {
    hide FlatOpt, Flat, In;
    if k.sending {
      FlatOptIn(a.sends, k.n);
    } else {
      var i := k.n - |a.sends|;
      FlatIn(a.recvs, i);
      if a.recvs[i].Many? { FlatOptIn(a.recvs[i].cs, k.an.value); }
    }
  }

  /** The entry picked can be served now, not by the program itself if it is a
      send entry, and it was ready before unless its own send has made it so. */
  ghost predicate GoodPick(a: Alt, us: set<Channel>, q: Snap, rs: set<Channel>, rr: set<Channel>, which: nat, k: Pick)
    reads us
  {
    && k.c in us && k.c in q.s && k.c in q.r && Picks(a, rs, rr + SetOf(FlatOpt(a.sends)), which, k)
    && (if k.sending then k.c.Receives() else k.c.Sends())
    && (NoSelf(a, rr) ==> Picks(a, rs, rr, which, k))
    && (k.sending ==> q.r[k.c] != [] || k.c !in Flat(a.recvs))
  }

  /** altcomm as the choice only, after an altrdy that found no fault. */
  method Choose(a: Alt, p: Prog, which: nat, ghost us: set<Channel>, ghost q: Snap, ghost rs: set<Channel>,
                ghost rr: set<Channel>)
      returns (k: Pick)
    requires Within(FlatOpt(a.sends), us) && Within(Flat(a.recvs), us)
    requires Queued(us, q, p, FlatOpt(a.sends), Flat(a.recvs)) && ReadyAs(us, q, rs, rr) && Fault(a, q.r) == None
    requires which < In(FlatOpt(a.sends), rs) + In(Flat(a.recvs), rr)
    ensures GoodPick(a, us, q, rs, rr, which, k)
  {
    hide *;
    ChoiceThere(a, p, us, q, rs, rr);
    var found := AltComm(a, which, us, rs + SetOf(Flat(a.recvs)), rr + SetOf(FlatOpt(a.sends)));
    k := found.value;
    ChoiceFacts(a, p, which, us, q, rs, rr, k);
  }

  /** There are at least as many ready entries as altrdy has counted. */
  lemma ChoiceThere(a: Alt, p: Prog, us: set<Channel>, q: Snap, rs: set<Channel>, rr: set<Channel>)
    requires Within(FlatOpt(a.sends), us)
    requires Queued(us, q, p, FlatOpt(a.sends), Flat(a.recvs)) && ReadyAs(us, q, rs, rr) && Fault(a, q.r) == None
    ensures !HasNil(a, |a.recvs|, |a.sends|)
    ensures var rs', rr' := rs + SetOf(Flat(a.recvs)), rr + SetOf(FlatOpt(a.sends));
            && Readies(us, rs', rr')
            && In(FlatOpt(a.sends), rs') + In(Flat(a.recvs), rr') >= In(FlatOpt(a.sends), rs) + In(Flat(a.recvs), rr)
  {
    hide FlatOpt, Flat, In, Fault, HasNil, SetOf, Readies, Copies;
    NilFault(a, q);
    ReadyNow(a, p, us, q, rs, rr);
    CountsAgree(a, q, rs, rr);
  }

  lemma ChoiceFacts(a: Alt, p: Prog, which: nat, us: set<Channel>, q: Snap, rs: set<Channel>, rr: set<Channel>, k: Pick)
    requires Within(FlatOpt(a.sends), us) && Within(Flat(a.recvs), us)
    requires ReadyAs(us, q, rs, rr) && Fault(a, q.r) == None
    requires Picks(a, rs + SetOf(Flat(a.recvs)), rr + SetOf(FlatOpt(a.sends)), which, k)
    requires Readies(us, rs + SetOf(Flat(a.recvs)), rr + SetOf(FlatOpt(a.sends)))
    ensures GoodPick(a, us, q, rs, rr, which, k)
  {
    hide FlatOpt, Flat, In, Picks, Fault, NoSelf, SetOf, BadSend;
    var s, r := FlatOpt(a.sends), Flat(a.recvs);
    PickHas(a, rs + SetOf(r), rr + SetOf(s), which, k);
    SendPicks(a, q, rs, rr + SetOf(s), which, k);
    SendsApart(a, q);
    if NoSelf(a, rr) {
      PickWasReady(a, rs, rr, which, k);
    }
  }

  lemma NilFault(a: Alt, q: Snap)
    requires Fault(a, q.r) == None
    ensures !HasNil(a, |a.recvs|, |a.sends|)
  {
    FaultIs(a, q.r, |a.sends|);
    hide Itself, BadSend;
  }

  /** Among the send entries, those picked were ready before the alt. */
  lemma SendPicks(a: Alt, q: Snap, rs: set<Channel>, rr: set<Channel>, which: int, k: Pick)
    requires Fault(a, q.r) == None && Within(FlatOpt(a.sends), q.r.Keys)
    requires forall c <- q.r :: q.r[c] != [] ==> c in rs
    requires Picks(a, rs + SetOf(Flat(a.recvs)), rr, which, k)
    ensures Picks(a, rs, rr, which, k)
  {
    hide FlatOpt, Flat, In, BadSend, PicksIn;
    var s, r := FlatOpt(a.sends), Flat(a.recvs);
    SendsApart(a, q);
    assert forall c <- s :: c in rs + SetOf(r) <==> c in rs;
    InSame(s, rs + SetOf(r), rs);
    if k.sending {
      FlatOptPrefix(a.sends, k.n);
      FlatOptIn(a.sends, k.n);
      InSame(FlatOpt(a.sends[..k.n]), rs + SetOf(r), rs);
    }
  }

  lemma OptUnique(cs: seq<Option<Channel>>, r: set<Channel>, i: nat, j: nat)
    requires i < |cs| && cs[i].Some? && cs[i].value in r && j < |cs| && cs[j].Some? && cs[j].value in r
    ensures In(FlatOpt(cs[..i]), r) < In(FlatOpt(cs), r)
    ensures In(FlatOpt(cs[..i]), r) == In(FlatOpt(cs[..j]), r) ==> i == j
  {
    hide FlatOpt, In;
    InOpt(cs, r, i);
    InOpt(cs, r, j);
    if i < j {
      InOptMonotone(cs[..j], r, i + 1);
      assert cs[..j][..i + 1] == cs[..i + 1];
    } else if j < i {
      InOptMonotone(cs[..i], r, j + 1);
      assert cs[..i][..j + 1] == cs[..j + 1];
    }
  }

  lemma PicksInBound(t: Target, rr: set<Channel>, which: int, c: Channel, an: Option<nat>)
    requires PicksIn(t, rr, which, c, an)
    ensures 0 <= which < In(FlatTarget(t), rr)
  {
    hide FlatOpt, FlatTarget, In;
    TargetIs(t);
    match t
    case One(_) => InOne(c, rr);
    case Many(cs) => OptUnique(cs, rr, an.value, an.value);
  }

  lemma PicksSide(a: Alt, rs: set<Channel>, rr: set<Channel>, which: int, k: Pick)
    requires Picks(a, rs, rr, which, k)
    ensures k.sending <==> which < In(FlatOpt(a.sends), rs)
  {
    hide FlatOpt, Flat, FlatTarget, In, PicksIn;
    if k.sending {
      OptUnique(a.sends, rs, k.n, k.n);
    } else {
      var i, w := k.n - |a.sends|, which - In(FlatOpt(a.sends), rs);
      PicksInBound(a.recvs[i], rr, w - In(Flat(a.recvs[..i]), rr), k.c, k.an);
    }
  }

  lemma PicksLater(a: Alt, rs: set<Channel>, rr: set<Channel>, which: int, k: Pick, l: Pick)
    requires Picks(a, rs, rr, which, k) && Picks(a, rs, rr, which, l) && !k.sending && !l.sending
    ensures k.n >= l.n
  {
    hide FlatOpt, Flat, FlatTarget, In, PicksIn;
    var w := which - In(FlatOpt(a.sends), rs);
    var i, j := k.n - |a.sends|, l.n - |a.sends|;
    PicksInBound(a.recvs[i], rr, w - In(Flat(a.recvs[..i]), rr), k.c, k.an);
    PicksInBound(a.recvs[j], rr, w - In(Flat(a.recvs[..j]), rr), l.c, l.an);
    InFlat(a.recvs, rr, i);
    if i < j {
      assert a.recvs[..j][..i + 1] == a.recvs[..i + 1];
      InFlat(a.recvs[..j], rr, i);
    }
  }

  /** The number fixes the entry. */
  lemma PickUnique(a: Alt, rs: set<Channel>, rr: set<Channel>, which: int, k: Pick, l: Pick)
    requires Picks(a, rs, rr, which, k) && Picks(a, rs, rr, which, l)
    ensures k == l
  {
    hide FlatOpt, Flat, In;
    PicksSide(a, rs, rr, which, k);
    PicksSide(a, rs, rr, which, l);
    if k.sending {
      OptUnique(a.sends, rs, k.n, l.n);
    } else {
      PicksLater(a, rs, rr, which, k, l);
      PicksLater(a, rs, rr, which, l, k);
      var t := a.recvs[k.n - |a.sends|];
      if t.Many? { OptUnique(t.cs, rr, k.an.value, l.an.value); }
    }
  }

  /** An entry, and a place in it, whose channel is ready. */
  predicate ReadyEntry(a: Alt, rs: set<Channel>, rr: set<Channel>, k: Pick) {
    if k.sending then
      k.n < |a.sends| && a.sends[k.n] == Some(k.c) && k.c in rs && k.an == None
    else
      && |a.sends| <= k.n < |a.sends| + |a.recvs| && k.c in rr
      && match a.recvs[k.n - |a.sends|]
         case NoChan => false
         case One(c) => c == k.c && k.an == None
         case Many(cs) => k.an.Some? && k.an.value < |cs| && cs[k.an.value] == Some(k.c)
  }

  /** How many ready ones there are before it. */
  function NumberOf(a: Alt, rs: set<Channel>, rr: set<Channel>, k: Pick): nat
    requires ReadyEntry(a, rs, rr, k)
  {
    if k.sending then In(FlatOpt(a.sends[..k.n]), rs)
    else
      var i := k.n - |a.sends|;
      In(FlatOpt(a.sends), rs) + In(Flat(a.recvs[..i]), rr)
      + if a.recvs[i].Many? then In(FlatOpt(a.recvs[i].cs[..k.an.value]), rr) else 0
  }

  /** Every ready entry has a number, below that of all of them. */
  lemma ReadyPicked(a: Alt, rs: set<Channel>, rr: set<Channel>, k: Pick)
    requires ReadyEntry(a, rs, rr, k)
    ensures Picks(a, rs, rr, NumberOf(a, rs, rr, k), k)
    ensures NumberOf(a, rs, rr, k) < In(FlatOpt(a.sends), rs) + In(Flat(a.recvs), rr)
  {
    hide FlatOpt, Flat, FlatTarget, In;
    if k.sending {
      OptUnique(a.sends, rs, k.n, k.n);
    } else {
      var i := k.n - |a.sends|;
      var w := NumberOf(a, rs, rr, k) - In(FlatOpt(a.sends), rs) - In(Flat(a.recvs[..i]), rr);
      PicksInBound(a.recvs[i], rr, w, k.c, k.an);
      InFlat(a.recvs, rr, i);
    }
  }
}
