/**
 The calls of the reader/writer lock as the processes that make them see them:
 what each call comes to when it returns, in every run.
 */
module RWLockCalls {
  import opened Basics
  import opened QLockProtocol
  import opened RWLockProtocol

  /** Whose turn it was, and what it called if it was in no call and had nothing. */
  datatype Turn = Turn(p: Pid, c: Choice)

  /** A run that tells whose turn it was. */
  ghost predicate Traced(ss: seq<Sys>, turns: seq<Turn>) {
    && |ss| == |turns| + 1
    && Init(ss[0])
    && forall i :: 0 <= i < |turns| ==> Moves(ss[i], ss[i + 1], turns[i].p, turns[i].c)
  }

  lemma TracedRuns(ss: seq<Sys>, turns: seq<Turn>)
    requires Traced(ss, turns)
    ensures Run(ss)
  {
    hide Init, Moves;
    forall i | 0 < i < |ss|
      ensures Next(ss[i - 1], ss[i])
    {
      assert Moves(ss[i - 1], ss[i - 1 + 1], turns[i - 1].p, turns[i - 1].c);
    }
  }

  /** Every run is one of somebody's turns. */
  lemma {:induction false} RunTraced(ss: seq<Sys>) returns (turns: seq<Turn>)
    requires Run(ss)
    ensures Traced(ss, turns)
  {
    hide Init, Moves;
    var n := |ss| - 1;
    if n == 0 {
      turns := [];
    } else {
      var before := RunTraced(ss[..n]);
      assert Next(ss[n - 1], ss[n]);
      var p, c :| Moves(ss[n - 1], ss[n], p, c);
      turns := before + [Turn(p, c)];
      forall i | 0 <= i < n
        ensures Moves(ss[i], ss[i + 1], turns[i].p, turns[i].c)
      {
        assert i < n - 1 ==> Moves(ss[..n][i], ss[..n][i + 1], before[i].p, before[i].c);
      }
    }
  }

  /** How far a process is with the calls it makes: outside, on its way into a
      call to get the lock, with the lock after such a call, or on its way
      through a call to release it. */
  datatype Phase = Outside | Entering(c: Choice) | Inside(c: Choice) | Exiting

  /** A move of the process.  A call returns when the process is in none any
      more; rlock and wlock always return with the lock, as far as the caller
      knows, and canrlock does if it says so. */
  function Advance(f: Phase, c: Choice, pc': Pc): Phase {
    match f
    case Outside => Entering(c)
    case Entering(e) => if pc'.In? then f else if e == DoCanRLock && pc' == Idle then Outside else Inside(e)
    case Inside(_) => Exiting
    case Exiting => if pc'.In? then f else Outside
  }

  function PhaseOf(ss: seq<Sys>, turns: seq<Turn>, i: nat, p: Pid): Phase
    requires i < |ss| <= |turns| + 1
  {
    if i == 0 then Outside
    else
      var f := PhaseOf(ss, turns, i - 1, p);
      if turns[i - 1].p == p && p in ss[i].pcs then Advance(f, turns[i - 1].c, ss[i].pcs[p]) else f
  }

  /** Where a process may be on its way into a call. */
  predicate WayIn(c: Choice, at: At) {
    match at
    case RLockX => c == DoRLock
    case CanX => c == DoCanRLock
    case RLockL | RLockInc | RLockK | RLockUnl | RLockXu => c != DoWLock
    case WLockX | WLockK => c == DoWLock
    case _ => false
  }

  predicate WayOut(at: At) {
    match at
    case RunL | RunDec | RunK | RunUnl | WunK | WunX => true
    case _ => false
  }

  /** What the calls promise. */
  predicate Promised(f: Phase, pc: Pc) {
    match f
    case Outside => pc == Idle
    case Entering(c) => pc.In? && WayIn(c, pc.at)
    case Inside(c) => pc == if c == DoWLock then Writing else Reading
    case Exiting => pc.In? && WayOut(pc.at)
  }

  /** A process in a call on x or k stays in it, or goes where it leads. */
  lemma CallLeads(s: Sys, p: Pid, at: At, sub: Sub)
    requires p in s.pcs && s.pcs[p] == In(at, sub) && sub != Out
    ensures var pc' := CallStep(s, p, at, sub).pcs[p];
            (exists sub' :: pc' == In(at, sub')) || ((Calls(at, X) || Calls(at, K)) && exists got :: pc' == After(at, got))
  {
    hide QStep, View, After;
  }

  lemma AfterPromised(at: At, got: bool, f: Phase, c: Choice, sub: Sub)
    requires Promised(f, In(at, sub)) && (Calls(at, X) || Calls(at, K))
    ensures Promised(Advance(f, c, After(at, got)), After(at, got))
  {
  }

  lemma PlainPromised(s: Sys, p: Pid, at: At, f: Phase, c: Choice)
    requires p in s.pcs && s.pcs[p] == In(at, Out) && Promised(f, s.pcs[p])
    ensures Promised(Advance(f, c, PlainStep(s, p, at).pcs[p]), PlainStep(s, p, at).pcs[p])
  {
  }

  lemma MovesPromised(s: Sys, t: Sys, p: Pid, c: Choice, f: Phase)
    requires Moves(s, t, p, c) && Promised(f, s.pcs[p])
    ensures Promised(Advance(f, c, t.pcs[p]), t.pcs[p])
  {
    hide CallStep, PlainStep, After;
    match s.pcs[p]
    case In(at, sub) =>
      if sub == Out {
        PlainPromised(s, p, at, f, c);
      } else {
        CallLeads(s, p, at, sub);
        if got :| (Calls(at, X) || Calls(at, K)) && t.pcs[p] == After(at, got) { AfterPromised(at, got, f, c, sub); }
      }
    case _ =>
  }

  lemma OthersKept(s: Sys, t: Sys, p: Pid, c: Choice)
    requires Moves(s, t, p, c)
    ensures t.pcs.Keys == s.pcs.Keys && forall q <- s.pcs :: q != p ==> t.pcs[q] == s.pcs[q]
  {
    hide QStep, Now, View;
  }

  /** In every run each call does what it promises: who has returned from wlock
      writes, who has returned from rlock, or from a canrlock that succeeds,
      reads, and who has done neither, or given the lock back, is idle. */
  lemma {:induction false} CallsKeepPromise(ss: seq<Sys>, turns: seq<Turn>, i: nat, p: Pid)
    requires Traced(ss, turns) && i < |ss| && p in ss[0].pcs
    ensures p in ss[i].pcs && Promised(PhaseOf(ss, turns, i, p), ss[i].pcs[p])
  {
    hide Moves, Promised, Advance;
    if i == 0 {
      assert Init(ss[0]);
      assert Promised(Outside, Idle) by { IdlePromised(); }
    } else {
      CallsKeepPromise(ss, turns, i - 1, p);
      var s, t, turn := ss[i - 1], ss[i - 1 + 1], turns[i - 1];
      assert Moves(s, t, turn.p, turn.c);
      OthersKept(s, t, turn.p, turn.c);
      if turn.p == p { MovesPromised(s, t, p, turn.c, PhaseOf(ss, turns, i - 1, p)); }
    }
  }

  lemma IdlePromised()
    ensures Promised(Outside, Idle)
  {
  }

  lemma NotQueueing(pc: Pc)
    requires WellPc(pc) && Promised(Entering(DoCanRLock), pc)
    ensures pc.In? && !InQLock(pc.sub)
  {
  }

  /** A process in canrlock never waits its turn: it is at no step of a qlock. */
  lemma CanNeverWaits(ss: seq<Sys>, turns: seq<Turn>, i: nat, p: Pid)
    requires Traced(ss, turns) && i < |ss| && p in ss[0].pcs && PhaseOf(ss, turns, i, p) == Entering(DoCanRLock)
    ensures p in ss[i].pcs && ss[i].pcs[p].In? && !InQLock(ss[i].pcs[p].sub)
  {
    hide PhaseOf, Traced, Inv, Promised, WellPc, Run, InQLock;
    CallsKeepPromise(ss, turns, i, p);
    TracedRuns(ss, turns);
    var g := RunInv(ss, i);
    WellIs(ss[i], g, p);
    NotQueueing(ss[i].pcs[p]);
  }

  lemma WellIs(s: Sys, g: Ghosts, p: Pid)
    requires Inv(s, g) && p in s.pcs
    ensures WellPc(s.pcs[p])
  {
    hide QInv, XOk, LOk, CountOk, KOk, PathOk, WellPc;
  }

  // ------------------------------------------------------------------
  // With everybody else idle

  /** Nobody has, wants or waits for anything. */
  predicate Resting(s: Sys) {
    s.x == s.k == QLock(false, false, None, None) && !s.l && s.readers == 0 && s.tokens == {}
  }

  lemma IdleQLock(v: QSys, a: Abs)
    requires QInv(v, a) && a.own != Held && forall p <- v.at :: v.at[p] == Out
    ensures v.lk == QLock(false, false, None, None)
  {
    NoMembers(a.queue);
  }

  lemma NoMembers(queue: seq<Pid>)
    ensures Members(queue) == {} ==> queue == []
  {
    if queue != [] { assert queue[0] in Members(queue); }
  }

  /** When all are idle nothing is left of the calls before. */
  lemma AllIdleRests(s: Sys, g: Ghosts)
    requires Inv(s, g) && forall p <- s.pcs :: s.pcs[p] == Idle
    ensures Resting(s)
  {
    hide QInv;
    assert g.rd == {};
    assert g.xh == None && g.kh == None && g.lh == None;
    IdleQLock(View(s, X), g.ax);
    IdleQLock(View(s, K), g.ak);
  }

  /** n moves of process p. */
  function Many(s: Sys, p: Pid, c: Choice, n: nat): (t: Sys)
    requires p in s.pcs
    ensures t.pcs.Keys == s.pcs.Keys
    decreases n
  {
    if n == 0 then s else Many(Step(s, p, c), p, c, n - 1)
  }

  lemma {:induction false} ManyJoin(s: Sys, p: Pid, c: Choice, m: nat, n: nat)
    requires p in s.pcs
    ensures Many(s, p, c, m + n) == Many(Many(s, p, c, m), p, c, n)
    decreases m
  {
    hide Step;
    if m > 0 { ManyJoin(Step(s, p, c), p, c, m - 1, n); }
  }

  const FREE: QLock := QLock(false, false, None, None)
  const TAKEN: QLock := QLock(false, true, None, None)

  function With(s: Sys, q: QId, lk: QLock): Sys { if q == X then s.(x := lk) else s.(k := lk) }

  function LockOf(s: Sys, q: QId): QLock { if q == X then s.x else s.k }

  /** One access in a call on x or k. */
  lemma Access(s: Sys, p: Pid, c: Choice, at: At, sub: Sub, q: QId, lk: QLock, sub': Sub)
    requires p in s.pcs && s.pcs[p] == In(at, sub) && sub != Out && Calls(at, q) && s.qnext.Keys == s.pcs.Keys
    requires QStep(View(s, q), p) == View(s, q).(lk := lk, at := View(s, q).at[p := sub'])
    ensures Step(s, p, c) == With(s.(pcs := s.pcs[p := if sub' == Out then After(at, sub == COk) else In(at, sub')]), q, lk)
  {
    hide QStep;
  }

  /** The next access of a process that is alone on a lock, and what it leaves
      of that: in qlock and canqlock on a free one, in qunlock on its own. */
  function Alone4(sub: Sub, lk: QLock): (Sub, QLock) {
    match sub
    case QEnter => (QTest, lk.(use := true))
    case QTest => (QSet, lk)
    case QSet => (QLeave, lk.(locked := true))
    case CEnter => (CTest, lk.(use := true))
    case CTest => (CSet, lk)
    case CSet => (COk, lk.(locked := true))
    case UEnter => (UHead, lk.(use := true))
    case UHead => (UClear, lk)
    case UClear => (UFree, lk.(locked := false))
    case _ => (Out, lk.(use := false))
  }

  /** Where a process alone on a lock may be, the lock being so. */
  predicate AloneAt(sub: Sub, lk: QLock) {
    && lk.head == None && lk.tail == None
    && match sub
       case QEnter | CEnter => !lk.use && !lk.locked
       case QTest | CTest | QSet | CSet => lk.use && !lk.locked
       case UEnter => !lk.use && lk.locked
       case UHead | UClear | QLeave | COk => lk.use && lk.locked
       case UFree => lk.use && !lk.locked
       case _ => false
  }

  lemma OneAlone(v: QSys, p: Pid, sub: Sub)
    requires p in v.at && v.at[p] == sub && AloneAt(sub, v.lk)
    ensures QStep(v, p) == v.(lk := Alone4(sub, v.lk).1, at := v.at[p := Alone4(sub, v.lk).0])
  {
  }

  /** s when p has come to pc, with the lock as lk. */
  function Put(s: Sys, p: Pid, pc: Pc, q: QId, lk: QLock): Sys {
    With(s.(pcs := s.pcs[p := pc]), q, lk)
  }

  lemma AccessAlone(s: Sys, p: Pid, c: Choice, at: At, sub: Sub, q: QId, lk: QLock)
    requires p in s.pcs && Calls(at, q) && s.qnext.Keys == s.pcs.Keys && AloneAt(sub, lk)
    ensures var (sub', lk') := Alone4(sub, lk);
            Step(Put(s, p, In(at, sub), q, lk), p, c)
            == Put(s, p, if sub' == Out then After(at, sub == COk) else In(at, sub'), q, lk')
  {
    hide QStep, Step, View, Alone4, AloneAt, Put, After;
    NotOut(sub, lk);
    var (sub', lk') := Alone4(sub, lk);
    PutAgain(s, p, at, sub, q, lk, if sub' == Out then After(at, sub == COk) else In(at, sub'), lk');
    var u := Put(s, p, In(at, sub), q, lk);
    ViewPut(s, p, at, sub, q, lk);
    OneAlone(View(u, q), p, sub);
    Access(u, p, c, at, sub, q, Alone4(sub, lk).1, Alone4(sub, lk).0);
  }

  lemma NotOut(sub: Sub, lk: QLock)
    ensures AloneAt(sub, lk) ==> sub != Out
  {
  }

  lemma PutAgain(s: Sys, p: Pid, at: At, sub: Sub, q: QId, lk: QLock, pc: Pc, lk': QLock)
    ensures var u := Put(s, p, In(at, sub), q, lk);
            && p in u.pcs && u.pcs[p] == In(at, sub) && u.pcs.Keys == s.pcs.Keys + {p} && u.qnext == s.qnext
            && With(u.(pcs := u.pcs[p := pc]), q, lk') == Put(s, p, pc, q, lk')
  {
    var u := Put(s, p, In(at, sub), q, lk);
    assert u.pcs[p := pc] == s.pcs[p := pc];
  }

  lemma ViewPut(s: Sys, p: Pid, at: At, sub: Sub, q: QId, lk: QLock)
    requires p in s.pcs && Calls(at, q)
    ensures var v := View(Put(s, p, In(at, sub), q, lk), q); p in v.at && v.at[p] == sub && v.lk == lk
  {
  }

  /** The four accesses of a call by a process alone on the lock. */
  lemma CallAlone(s: Sys, p: Pid, c: Choice, at: At, sub: Sub, q: QId)
    requires p in s.pcs && Calls(at, q) && s.qnext.Keys == s.pcs.Keys && (sub == QEnter || sub == CEnter || sub == UEnter)
    ensures Many(Put(s, p, In(at, sub), q, if sub == UEnter then TAKEN else FREE), p, c, 4)
         == Put(s, p, After(at, sub == CEnter), q, if sub == UEnter then FREE else TAKEN)
  {
    hide Step, Put, Many, After, Alone4, AloneAt;
    var lk := if sub == UEnter then TAKEN else FREE;
    var b := Alone4(sub, lk);
    var d := Alone4(b.0, b.1);
    var e := Alone4(d.0, d.1);
    FourSubs(sub);
    AccessAlone(s, p, c, at, sub, q, lk);
    AccessAlone(s, p, c, at, b.0, q, b.1);
    AccessAlone(s, p, c, at, d.0, q, d.1);
    AccessAlone(s, p, c, at, e.0, q, e.1);
    PutHas(s, p, In(at, sub), q, lk);
    Four(Put(s, p, In(at, sub), q, lk), p, c);
  }

  lemma FourSubs(sub: Sub)
    requires sub == QEnter || sub == CEnter || sub == UEnter
    ensures var lk := if sub == UEnter then TAKEN else FREE;
            var b := Alone4(sub, lk);
            var d := Alone4(b.0, b.1);
            var e := Alone4(d.0, d.1);
            && AloneAt(sub, lk) && AloneAt(b.0, b.1) && AloneAt(d.0, d.1) && AloneAt(e.0, e.1)
            && b.0 != Out && d.0 != Out && e.0 != Out && (e.0 == COk <==> sub == CEnter)
            && Alone4(e.0, e.1) == (Out, if sub == UEnter then FREE else TAKEN)
  {
  }

  lemma PutHas(s: Sys, p: Pid, pc: Pc, q: QId, lk: QLock)
    ensures p in Put(s, p, pc, q, lk).pcs
  {
  }

  lemma Four(s: Sys, p: Pid, c: Choice)
    requires p in s.pcs
    ensures Many(s, p, c, 4) == Step(Step(Step(Step(s, p, c), p, c), p, c), p, c)
  {
    hide Step;
  }

  lemma SelfPut(s: Sys, p: Pid, q: QId)
    requires p in s.pcs
    ensures Put(s, p, s.pcs[p], q, LockOf(s, q)) == s
  {
    assert s.pcs[p := s.pcs[p]] == s.pcs;
  }

  /** A call on x or k that begins on a lock as it should be. */
  lemma CallFrom(s: Sys, p: Pid, c: Choice, at: At, sub: Sub, q: QId)
    requires p in s.pcs && s.pcs[p] == In(at, sub) && Calls(at, q) && s.qnext.Keys == s.pcs.Keys
    requires (sub == QEnter || sub == CEnter || sub == UEnter) && LockOf(s, q) == if sub == UEnter then TAKEN else FREE
    ensures Many(s, p, c, 4) == Put(s, p, After(at, sub == CEnter), q, if sub == UEnter then FREE else TAKEN)
  {
    hide Many, After;
    SelfPut(s, p, q);
    CallAlone(s, p, c, at, sub, q);
  }

  /** s with another place for p, and the locks, the spinlock and the count as told. */
  function St(s: Sys, p: Pid, pc: Pc, x: QLock, k: QLock, l: bool, readers: int): Sys {
    s.(pcs := s.pcs[p := pc], x := x, k := k, l := l, readers := readers)
  }

  lemma StAgain(s: Sys, p: Pid, pc: Pc, x: QLock, k: QLock, l: bool, readers: int, pc': Pc)
    ensures var u := St(s, p, pc, x, k, l, readers);
            && p in u.pcs && u.pcs[p] == pc && u.qnext == s.qnext && (p in s.pcs ==> u.pcs.Keys == s.pcs.Keys)
            && (forall lk :: Put(u, p, pc', X, lk) == St(s, p, pc', lk, k, l, readers))
            && (forall lk :: Put(u, p, pc', K, lk) == St(s, p, pc', x, lk, l, readers))
            && (forall l', r :: u.(pcs := u.pcs[p := pc'], l := l', readers := r) == St(s, p, pc', x, k, l', r))
            && LockOf(u, X) == x && LockOf(u, K) == k
  {
    var u := St(s, p, pc, x, k, l, readers);
    assert u.pcs[p := pc'] == s.pcs[p := pc'];
  }

  /** A call on one of the locks, by a process alone on it. */
  lemma CallOn(s: Sys, p: Pid, c: Choice, at: At, sub: Sub, q: QId, x: QLock, k: QLock, l: bool, readers: int)
    requires p in s.pcs && Calls(at, q) && s.qnext.Keys == s.pcs.Keys
    requires (sub == QEnter || sub == CEnter || sub == UEnter) && (if q == X then x else k) == if sub == UEnter then TAKEN else FREE
    ensures var lk := if sub == UEnter then FREE else TAKEN;
            && p in St(s, p, In(at, sub), x, k, l, readers).pcs
            && Many(St(s, p, In(at, sub), x, k, l, readers), p, c, 4)
            == St(s, p, After(at, sub == CEnter), if q == X then lk else x, if q == K then lk else k, l, readers)
  {
    hide Many, After, St, Put, LockOf;
    StAgain(s, p, In(at, sub), x, k, l, readers, After(at, sub == CEnter));
    CallFrom(St(s, p, In(at, sub), x, k, l, readers), p, c, at, sub, q);
  }

  /** An access outside the calls on x and k. */
  lemma PlainOn(s: Sys, p: Pid, c: Choice, pc: Pc, x: QLock, k: QLock, l: bool, readers: int)
    requires p in s.pcs && (pc.In? ==> pc.sub == Out)
    ensures var u := St(s, p, pc, x, k, l, readers);
            && p in u.pcs
            && Many(u, p, c, 1)
            == match pc
               case Idle =>
                 St(s, p, Begin(match c case DoRLock => RLockX case DoCanRLock => CanX case DoWLock => WLockX), x, k, l, readers)
               case Reading => St(s, p, Begin(RunL), x, k, l, readers)
               case Writing => St(s, p, Begin(WunK), x, k, l, readers)
               case In(at, _) =>
                 match at
                 case RLockL => if l then u else St(s, p, Begin(RLockInc), x, k, true, readers)
                 case RLockInc => St(s, p, Begin(RLockK), x, k, l, readers + 1)
                 case RLockUnl => St(s, p, Begin(RLockXu), x, k, false, readers)
                 case RunL => if l then u else St(s, p, Begin(RunDec), x, k, true, readers)
                 case RunDec => St(s, p, Begin(if readers - 1 == 0 then RunK else RunUnl), x, k, l, readers - 1)
                 case RunUnl => St(s, p, Idle, x, k, false, readers)
                 case _ => u
  {
    hide CallStep, Begin, Put, LockOf;
    var u := St(s, p, pc, x, k, l, readers);
    One(u, p, c);
    StAgain(s, p, pc, x, k, l, readers, Step(u, p, c).pcs[p]);
  }

  lemma One(s: Sys, p: Pid, c: Choice)
    requires p in s.pcs
    ensures Many(s, p, c, 1) == Step(s, p, c)
  {
    hide Step;
  }

  lemma RestIs(s: Sys, p: Pid)
    requires Resting(s) && p in s.pcs && s.pcs[p] == Idle
    ensures s == St(s, p, Idle, FREE, FREE, false, 0)
  {
    assert s.pcs[p := Idle] == s.pcs;
  }

  /** From u p comes to w in n moves. */
  predicate Comes(u: Sys, p: Pid, c: Choice, n: nat, w: Sys) {
    p in u.pcs && Many(u, p, c, n) == w
  }

  lemma Then(u: Sys, v: Sys, w: Sys, p: Pid, c: Choice, m: nat, n: nat)
    requires Comes(u, p, c, m, v) && Comes(v, p, c, n, w)
    ensures Comes(u, p, c, m + n, w)
  {
    hide Many;
    ManyJoin(u, p, c, m, n);
  }

  lemma Enters(s: Sys, p: Pid, c: Choice, at: At, q: QId, x: QLock, k: QLock, l: bool, readers: int)
    requires p in s.pcs && s.qnext.Keys == s.pcs.Keys
    requires at == RLockX || at == CanX || at == WLockX || at == WLockK || at == RLockK
    requires Calls(at, q) && (if q == X then x else k) == FREE
    ensures Comes(St(s, p, Begin(at), x, k, l, readers), p, c, 4,
                  St(s, p, After(at, true), if q == X then TAKEN else x, if q == K then TAKEN else k, l, readers))
  {
    hide Many, St, After;
    CallOn(s, p, c, at, Begin(at).sub, q, x, k, l, readers);
    AfterQLock(at);
  }

  lemma AfterQLock(at: At)
    ensures at != CanX ==> After(at, true) == After(at, false)
  {
  }

  lemma Leaves(s: Sys, p: Pid, c: Choice, at: At, q: QId, x: QLock, k: QLock, l: bool, readers: int)
    requires p in s.pcs && s.qnext.Keys == s.pcs.Keys && (at == RLockXu || at == RunK || at == WunK || at == WunX)
    requires Calls(at, q) && (if q == X then x else k) == TAKEN
    ensures Comes(St(s, p, Begin(at), x, k, l, readers), p, c, 4,
                  St(s, p, After(at, true), if q == X then FREE else x, if q == K then FREE else k, l, readers))
  {
    hide Many, St, After;
    CallOn(s, p, c, at, UEnter, q, x, k, l, readers);
    AfterQLock(at);
  }

  /** wlock, with everybody else idle, gets both locks in nine accesses, and
      wunlock leaves all as it was. */
  lemma WriterAlone(s: Sys, p: Pid)
    requires Resting(s) && p in s.pcs && s.pcs[p] == Idle && s.qnext.Keys == s.pcs.Keys
    ensures Many(s, p, DoWLock, 9) == St(s, p, Writing, TAKEN, TAKEN, false, 0)
    ensures Many(s, p, DoWLock, 18) == s
  {
    hide Many, St, Step, Resting, Begin;
    RestIs(s, p);
    WriterEnters(s, p, DoWLock);
    WriterLeaves(s, p, DoWLock);
    Then(s, St(s, p, Writing, TAKEN, TAKEN, false, 0), s, p, DoWLock, 9, 9);
  }

  lemma WriterEnters(s: Sys, p: Pid, c: Choice)
    requires p in s.pcs && s.qnext.Keys == s.pcs.Keys && c == DoWLock
    ensures Comes(St(s, p, Idle, FREE, FREE, false, 0), p, c, 9, St(s, p, Writing, TAKEN, TAKEN, false, 0))
  {
    hide Many, St, Step, Begin;
    var a, b := St(s, p, Idle, FREE, FREE, false, 0), St(s, p, Begin(WLockX), FREE, FREE, false, 0);
    var d, e := St(s, p, Begin(WLockK), TAKEN, FREE, false, 0), St(s, p, Writing, TAKEN, TAKEN, false, 0);
    PlainOn(s, p, c, Idle, FREE, FREE, false, 0);
    Enters(s, p, c, WLockX, X, FREE, FREE, false, 0);
    Enters(s, p, c, WLockK, K, TAKEN, FREE, false, 0);
    Then(a, b, d, p, c, 1, 4);
    Then(a, d, e, p, c, 5, 4);
  }

  lemma WriterLeaves(s: Sys, p: Pid, c: Choice)
    requires p in s.pcs && s.qnext.Keys == s.pcs.Keys
    ensures Comes(St(s, p, Writing, TAKEN, TAKEN, false, 0), p, c, 9, St(s, p, Idle, FREE, FREE, false, 0))
  {
    hide Many, St, Step, Begin;
    var a, b := St(s, p, Writing, TAKEN, TAKEN, false, 0), St(s, p, Begin(WunK), TAKEN, TAKEN, false, 0);
    var d, e := St(s, p, Begin(WunX), TAKEN, FREE, false, 0), St(s, p, Idle, FREE, FREE, false, 0);
    PlainOn(s, p, c, Writing, TAKEN, TAKEN, false, 0);
    Leaves(s, p, c, WunK, K, TAKEN, TAKEN, false, 0);
    Leaves(s, p, c, WunX, X, TAKEN, FREE, false, 0);
    Then(a, b, d, p, c, 1, 4);
    Then(a, d, e, p, c, 5, 4);
  }

  /** So do rlock and canrlock, which succeeds, with the lock for readers, and
      runlock leaves all as it was. */
  lemma ReaderAlone(s: Sys, p: Pid, c: Choice)
    requires Resting(s) && p in s.pcs && s.pcs[p] == Idle && s.qnext.Keys == s.pcs.Keys && c != DoWLock
    ensures Many(s, p, c, 16) == St(s, p, Reading, FREE, TAKEN, false, 1)
    ensures Many(s, p, c, 24) == s
  {
    hide Many, St, Step, Resting, Begin;
    var a, b := St(s, p, Begin(RLockL), TAKEN, FREE, false, 0), St(s, p, Begin(RLockUnl), TAKEN, TAKEN, true, 1);
    var d, e := St(s, p, Reading, FREE, TAKEN, false, 1), St(s, p, Begin(RunK), FREE, TAKEN, true, 0);
    RestIs(s, p);
    ReaderStarts(s, p, c);
    ReaderCounts(s, p, c);
    ReaderEnters(s, p, c);
    ReaderUncounts(s, p, c);
    ReaderLeaves(s, p, c);
    Then(s, a, b, p, c, 5, 6);
    Then(s, b, d, p, c, 11, 5);
    Then(s, d, e, p, c, 16, 3);
    Then(s, e, s, p, c, 19, 5);
  }

  lemma ReaderStarts(s: Sys, p: Pid, c: Choice)
    requires p in s.pcs && s.qnext.Keys == s.pcs.Keys && c != DoWLock
    ensures Comes(St(s, p, Idle, FREE, FREE, false, 0), p, c, 5, St(s, p, Begin(RLockL), TAKEN, FREE, false, 0))
  {
    hide Many, St, Step, Begin;
    var at := if c == DoRLock then RLockX else CanX;
    PlainOn(s, p, c, Idle, FREE, FREE, false, 0);
    Enters(s, p, c, at, X, FREE, FREE, false, 0);
    Then(St(s, p, Idle, FREE, FREE, false, 0), St(s, p, Begin(at), FREE, FREE, false, 0),
         St(s, p, Begin(RLockL), TAKEN, FREE, false, 0), p, c, 1, 4);
  }

  lemma ReaderCounts(s: Sys, p: Pid, c: Choice)
    requires p in s.pcs && s.qnext.Keys == s.pcs.Keys
    ensures Comes(St(s, p, Begin(RLockL), TAKEN, FREE, false, 0), p, c, 6, St(s, p, Begin(RLockUnl), TAKEN, TAKEN, true, 1))
  {
    hide Many, St, Step, Begin;
    PlainBegins();
    var a, b := St(s, p, Begin(RLockL), TAKEN, FREE, false, 0), St(s, p, Begin(RLockInc), TAKEN, FREE, true, 0);
    var d, e := St(s, p, Begin(RLockK), TAKEN, FREE, true, 1), St(s, p, Begin(RLockUnl), TAKEN, TAKEN, true, 1);
    PlainOn(s, p, c, Begin(RLockL), TAKEN, FREE, false, 0);
    PlainOn(s, p, c, Begin(RLockInc), TAKEN, FREE, true, 0);
    Enters(s, p, c, RLockK, K, TAKEN, FREE, true, 1);
    Then(a, b, d, p, c, 1, 1);
    Then(a, d, e, p, c, 2, 4);
  }

  lemma PlainBegins()
    ensures Begin(RLockL) == In(RLockL, Out) && Begin(RLockInc) == In(RLockInc, Out) && Begin(RLockUnl) == In(RLockUnl, Out)
    ensures Begin(RunL) == In(RunL, Out) && Begin(RunDec) == In(RunDec, Out) && Begin(RunUnl) == In(RunUnl, Out)
  {
  }

  lemma ReaderEnters(s: Sys, p: Pid, c: Choice)
    requires p in s.pcs && s.qnext.Keys == s.pcs.Keys
    ensures Comes(St(s, p, Begin(RLockUnl), TAKEN, TAKEN, true, 1), p, c, 5, St(s, p, Reading, FREE, TAKEN, false, 1))
  {
    hide Many, St, Step, Begin;
    PlainBegins();
    PlainOn(s, p, c, Begin(RLockUnl), TAKEN, TAKEN, true, 1);
    Leaves(s, p, c, RLockXu, X, TAKEN, TAKEN, false, 1);
    Then(St(s, p, Begin(RLockUnl), TAKEN, TAKEN, true, 1), St(s, p, Begin(RLockXu), TAKEN, TAKEN, false, 1),
         St(s, p, Reading, FREE, TAKEN, false, 1), p, c, 1, 4);
  }

  lemma ReaderUncounts(s: Sys, p: Pid, c: Choice)
    requires p in s.pcs && s.qnext.Keys == s.pcs.Keys
    ensures Comes(St(s, p, Reading, FREE, TAKEN, false, 1), p, c, 3, St(s, p, Begin(RunK), FREE, TAKEN, true, 0))
  {
    hide Many, St, Step, Begin;
    PlainBegins();
    var a, b := St(s, p, Reading, FREE, TAKEN, false, 1), St(s, p, Begin(RunL), FREE, TAKEN, false, 1);
    var d, e := St(s, p, Begin(RunDec), FREE, TAKEN, true, 1), St(s, p, Begin(RunK), FREE, TAKEN, true, 0);
    PlainOn(s, p, c, Reading, FREE, TAKEN, false, 1);
    PlainOn(s, p, c, Begin(RunL), FREE, TAKEN, false, 1);
    PlainOn(s, p, c, Begin(RunDec), FREE, TAKEN, true, 1);
    Then(a, b, d, p, c, 1, 1);
    Then(a, d, e, p, c, 2, 1);
  }

  lemma ReaderLeaves(s: Sys, p: Pid, c: Choice)
    requires p in s.pcs && s.qnext.Keys == s.pcs.Keys
    ensures Comes(St(s, p, Begin(RunK), FREE, TAKEN, true, 0), p, c, 5, St(s, p, Idle, FREE, FREE, false, 0))
  {
    hide Many, St, Step, Begin;
    PlainBegins();
    Leaves(s, p, c, RunK, K, FREE, TAKEN, true, 0);
    PlainOn(s, p, c, Begin(RunUnl), FREE, FREE, true, 0);
    Then(St(s, p, Begin(RunK), FREE, TAKEN, true, 0), St(s, p, Begin(RunUnl), FREE, FREE, true, 0),
         St(s, p, Idle, FREE, FREE, false, 0), p, c, 4, 1);
  }
}
