/**
 The reader/writer lock of lib9/lock.c, built from two QLocks x and k, a
 spinlock l and a counter, as interleaved steps of any number of processes.
 `rlock` and `canrlock` ignore what canqlock(&l->k) returns; that this is safe
 is what the invariant has to explain.
 */
module RWLockProtocol {
  import opened Basics
  import opened QLockProtocol

  datatype QId = X | K

  /** What a process is about; on x and k it goes through QLock steps. */
  datatype At =
      // a reader comes in, by way of x in one way or the other
    | RLockX     // get x
    | CanX       // get x if it is free
    | RLockL     // take the spinlock l
    | RLockInc   // one more reader
    | RLockK     // get k if it is free, the result ignored
    | RLockUnl   // drop l
    | RLockXu    // give x back
      // a reader goes out
    | RunL       // take l
    | RunDec     // one reader less: was it the last?
    | RunK       // then give k back
    | RunUnl     // drop l
      // a writer comes in
    | WLockX     // get x
    | WLockK     // get k, when the readers are out
      // a writer goes out
    | WunK       // give k back
    | WunX       // give x back

  datatype Pc = Idle | Reading | Writing | In(at: At, sub: Sub)

  datatype Sys = Sys(x: QLock, k: QLock, l: bool, readers: int,
                     qnext: map<Pid, Option<Pid>>, tokens: set<Pid>, pcs: map<Pid, Pc>)

  /** What an idle process calls next. */
  datatype Choice = DoRLock | DoCanRLock | DoWLock

  predicate Calls(at: At, q: QId) {
    match q
    case X => at == RLockX || at == CanX || at == RLockXu || at == WLockX || at == WunX
    case K => at == RLockK || at == RunK || at == WLockK || at == WunK
  }

  /** The first access of a statement. */
  function Begin(at: At): Pc {
    In(at,
       if at == RLockX || at == WLockX || at == WLockK then QEnter
       else if at == CanX || at == RLockK then CEnter
       else if at == RLockXu || at == RunK || at == WunK || at == WunX then UEnter
       else Out)
  }

  function SubOf(pc: Pc, q: QId): Sub {
    if pc.In? && Calls(pc.at, q) then pc.sub else Out
  }

  /** One of the two QLocks as its module sees it. */
  function View(s: Sys, q: QId): QSys {
    QSys(if q == X then s.x else s.k, s.qnext, s.tokens, map p | p in s.pcs :: SubOf(s.pcs[p], q))
  }

  /** Where a process goes when the call at `at` returns; `got` is what a
      canqlock returned. */
  function After(at: At, got: bool): Pc {
    match at
    case RLockX => Begin(RLockL)
    case CanX => if got then Begin(RLockL) else Idle
    case RLockK => Begin(RLockUnl)
    case RLockXu => Reading
    case RunK => Begin(RunUnl)
    case WLockX => Begin(WLockK)
    case WLockK => Writing
    case WunK => Begin(WunX)
    case WunX => Idle
    case _ => Idle
  }

  /** The next access of process p. */
  function Step(s: Sys, p: Pid, c: Choice): (t: Sys)
    requires p in s.pcs
    ensures t.pcs.Keys == s.pcs.Keys
  {
    match s.pcs[p]
    case Idle => s.(pcs := s.pcs[p := Begin(match c case DoRLock => RLockX case DoCanRLock => CanX case DoWLock => WLockX)])
    case Reading => s.(pcs := s.pcs[p := Begin(RunL)])
    case Writing => s.(pcs := s.pcs[p := Begin(WunK)])
    case In(at, sub) =>
      if sub == Out then PlainStep(s, p, at)
      else CallStep(s, p, at, sub)
  }

  function PlainStep(s: Sys, p: Pid, at: At): (t: Sys)
    requires p in s.pcs
    ensures t.pcs.Keys == s.pcs.Keys
  {
    match at
    case RLockL => if s.l then s else s.(l := true, pcs := s.pcs[p := Begin(RLockInc)])
    case RLockInc => s.(readers := s.readers + 1, pcs := s.pcs[p := Begin(RLockK)])
    case RLockUnl => s.(l := false, pcs := s.pcs[p := Begin(RLockXu)])
    case RunL => if s.l then s else s.(l := true, pcs := s.pcs[p := Begin(RunDec)])
    case RunDec => s.(readers := s.readers - 1, pcs := s.pcs[p := Begin(if s.readers - 1 == 0 then RunK else RunUnl)])
    case RunUnl => s.(l := false, pcs := s.pcs[p := Idle])
    case _ => s
  }

  function CallStep(s: Sys, p: Pid, at: At, sub: Sub): (t: Sys)
    requires p in s.pcs && s.pcs[p] == In(at, sub) && sub != Out
    ensures t.pcs.Keys == s.pcs.Keys
  {
    var q := if Calls(at, X) then X else K;
    if !Calls(at, q) then s
    else
      var w, sub' := QStep(View(s, q), p), Now(View(s, q), p);
      var t := s.(qnext := w.qnext, tokens := w.tokens,
                  pcs := s.pcs[p := if sub' == Out then After(at, sub == COk) else In(at, sub')]);
      if q == X then t.(x := w.lk) else t.(k := w.lk)
  }

  // ------------------------------------------------------------------
  // Runs

  predicate Init(s: Sys) {
    && s.x == s.k == QLock(false, false, None, None)
    && !s.l && s.readers == 0 && s.tokens == {}
    && s.qnext.Keys == s.pcs.Keys
    && forall p <- s.pcs :: s.pcs[p] == Idle
  }

  ghost predicate Next(s: Sys, t: Sys) {
    exists p, c :: Moves(s, t, p, c)
  }

  predicate Moves(s: Sys, t: Sys, p: Pid, c: Choice) {
    p in s.pcs && t == Step(s, p, c)
  }

  ghost predicate Run(ss: seq<Sys>) {
    && ss != []
    && Init(ss[0])
    && forall i :: 0 < i < |ss| ==> Next(ss[i - 1], ss[i])
  }

  // ------------------------------------------------------------------
  // The invariant

  /** Who has what, between calls: `xh` has x, `lh` has l, `kh` has k as a
      writer, `kr` says that the readers together have k, and `rd` are the
      readers that are counted. */
  datatype Ghosts = Ghosts(ax: Abs, ak: Abs, xh: Option<Pid>, lh: Option<Pid>, kh: Option<Pid>, kr: bool, rd: set<Pid>)

  predicate WellPc(pc: Pc) {
    pc.In? ==>
      match pc.at
      case RLockX | WLockX | WLockK => InQLock(pc.sub)
      case CanX | RLockK => InCanQLock(pc.sub)
      case RLockXu | RunK | WunK | WunX => InQUnlock(pc.sub)
      case _ => pc.sub == Out
  }

  predicate HoldsX(pc: Pc) {
    pc == Writing ||
    (pc.In? && match pc.at
               case RLockL | RLockInc | RLockK | RLockUnl | WLockK | WunK => true
               case _ => false)
  }

  predicate HoldsL(pc: Pc) {
    pc.In? && match pc.at
              case RLockInc | RLockK | RLockUnl | RunDec | RunK | RunUnl => true
              case _ => false
  }

  predicate Counted(pc: Pc) {
    pc == Reading ||
    (pc.In? && match pc.at
               case RLockK | RLockUnl | RLockXu | RunL | RunDec => true
               case _ => false)
  }

  predicate PcsOk(s: Sys) {
    && s.qnext.Keys == s.pcs.Keys
    && (forall p <- s.pcs :: WellPc(s.pcs[p]))
    && (forall p <- s.tokens :: p in s.pcs && s.pcs[p].In? && s.pcs[p].sub == QBlock)
  }

  predicate XOk(s: Sys, g: Ghosts) {
    && (g.xh.Some? ==> g.xh.value in s.pcs)
    && (forall p <- s.pcs :: HoldsX(s.pcs[p]) <==> g.xh == Some(p))
    && (g.ax.own == Held <==> g.xh.Some?)
  }

  predicate LOk(s: Sys, g: Ghosts) {
    && (g.lh.Some? ==> g.lh.value in s.pcs)
    && (forall p <- s.pcs :: HoldsL(s.pcs[p]) <==> g.lh == Some(p))
    && s.l == g.lh.Some?
  }

  predicate CountOk(s: Sys, g: Ghosts) {
    && g.rd <= s.pcs.Keys
    && (forall p <- s.pcs :: Counted(s.pcs[p]) <==> p in g.rd)
    && s.readers == |g.rd|
  }

  predicate KOk(s: Sys, g: Ghosts) {
    && (g.kh.Some? ==> g.kh.value in s.pcs)
    && (forall p <- s.pcs :: s.pcs[p] == Writing <==> g.kh == Some(p))
    && (g.ak.own == Held <==> g.kh.Some? || g.kr)
    && !(g.kh.Some? && g.kr)
    && g.kr == ReadersHaveK(s, g)
  }

  /** The readers have k from the first one's canqlock to the last one's
      qunlock; in between a process with l is on its way. */
  predicate ReadersHaveK(s: Sys, g: Ghosts) {
    if g.lh.Some? && g.lh.value in s.pcs && s.pcs[g.lh.value].In? then
      var pc := s.pcs[g.lh.value];
      if pc.at == RLockK then |g.rd| > 1
      else if pc.at == RunK then false
      else g.rd != {}
    else g.rd != {}
  }

  /** How far the process at the unchecked canqlock and the last reader are. */
  predicate PathOk(s: Sys, g: Ghosts) {
    forall p <- s.pcs :: s.pcs[p].In? ==>
      && (s.pcs[p].at == RLockK && (s.pcs[p].sub == CSet || s.pcs[p].sub == COk) ==> |g.rd| == 1)
      && (s.pcs[p].at == RLockK && s.pcs[p].sub == CFail ==> |g.rd| > 1)
      && (s.pcs[p].at == RunK ==> g.rd == {})
  }

  predicate Inv(s: Sys, g: Ghosts) {
    && PcsOk(s) && XOk(s, g) && LOk(s, g) && CountOk(s, g) && KOk(s, g) && PathOk(s, g)
    && QInv(View(s, X), g.ax) && QInv(View(s, K), g.ak)
  }

  // ------------------------------------------------------------------
  // What the invariant says

  /** No writer has the lock together with a reader or another writer. */
  lemma Exclusion(s: Sys, g: Ghosts, w: Pid, p: Pid)
    requires Inv(s, g) && w in s.pcs && p in s.pcs && s.pcs[w] == Writing
    ensures s.pcs[p] != Reading
    ensures s.pcs[p] == Writing ==> p == w
  {
    hide QInv;
    assert HoldsX(s.pcs[w]);
    if g.lh.Some? {
      assert HoldsL(s.pcs[g.lh.value]);
    }
  }

  lemma OthersOffK(s: Sys, g: Ghosts, p: Pid)
    requires XOk(s, g) && LOk(s, g) && p in s.pcs && s.pcs[p].In? && s.pcs[p].at == RLockK
    ensures forall q <- s.pcs :: q != p ==> SubOf(s.pcs[q], K) == Out
  {
    assert HoldsX(s.pcs[p]) && HoldsL(s.pcs[p]);
    forall q | q in s.pcs && q != p
      ensures SubOf(s.pcs[q], K) == Out
    {
      assert !HoldsX(s.pcs[q]) && !HoldsL(s.pcs[q]);
    }
  }

  /** While a process is at the unchecked canqlock nobody else is in a call on
      k, so it never meets the spinlock, and k is taken exactly if there were
      readers before: the canqlock of the first reader cannot fail. */
  lemma AloneAtK(s: Sys, g: Ghosts, p: Pid)
    requires Inv(s, g) && p in s.pcs && s.pcs[p].In? && s.pcs[p].at == RLockK
    ensures s.pcs[p].sub == CEnter ==> !s.k.use
    ensures s.pcs[p].sub == CTest ==> (s.k.locked <==> s.readers > 1)
  {
    hide QInv;
    OthersOffK(s, g, p);
    Alone(View(s, K), g.ak, p);
    assert HoldsX(s.pcs[p]) && HoldsL(s.pcs[p]);
  }

  // ------------------------------------------------------------------
  // Every step keeps the invariant

  function Other(q: QId): QId { if q == X then K else X }

  /** A lock's specification state after p's access: a step of a call under
      way, and then the start of a new one. */
  function AbsAfter(s: Sys, a: Abs, q: QId, p: Pid, pc': Pc): Abs
    requires p in s.pcs
  {
    if SubOf(s.pcs[p], q) != Out then AbsStep(View(s, q), a, p)
    else CallAbs(a, p, SubOf(pc', q))
  }

  function Mark(h: Option<Pid>, was: bool, now: bool, p: Pid): Option<Pid> {
    if was == now then h else if now then Some(p) else None
  }

  function GhostStep(s: Sys, g: Ghosts, p: Pid, pc': Pc): Ghosts
    requires p in s.pcs
  {
    var pc := s.pcs[p];
    Ghosts(
      AbsAfter(s, g.ax, X, p, pc'),
      AbsAfter(s, g.ak, K, p, pc'),
      Mark(g.xh, HoldsX(pc), HoldsX(pc'), p),
      Mark(g.lh, HoldsL(pc), HoldsL(pc'), p),
      Mark(g.kh, pc == Writing, pc' == Writing, p),
      if pc'.In? && pc'.at == RunK then false
      else if pc.In? && pc.at == RLockK && pc'.In? && pc'.at == RLockUnl then true
      else g.kr,
      if Counted(pc) == Counted(pc') then g.rd else if Counted(pc') then g.rd + {p} else g.rd - {p})
  }

  /** The statement of a call that is under way, and the lock it is on. */
  predicate Calling(pc: Pc, q: QId) {
    pc.In? && pc.sub != Out && Calls(pc.at, q)
  }

  /** Where p is after its access `w` to the lock it is calling. */
  function PcAfter(pc: Pc, sub': Sub): Pc
    requires pc.In?
  {
    if sub' == Out then After(pc.at, pc.sub == COk) else In(pc.at, sub')
  }

  /** A call step as a whole: an access `w` to lock q, and p moves on. */
  predicate CallEffect(s: Sys, t: Sys, p: Pid, q: QId, w: QSys) {
    && p in s.pcs && p in w.at && Calling(s.pcs[p], q)
    && t.pcs == s.pcs[p := PcAfter(s.pcs[p], w.at[p])]
    && t.qnext == w.qnext && t.tokens == w.tokens && t.l == s.l && t.readers == s.readers
    && (if q == X then t.x == w.lk && t.k == s.k else t.x == s.x && t.k == w.lk)
  }

  lemma CallIsEffect(s: Sys, p: Pid, c: Choice, q: QId)
    requires p in s.pcs && Calling(s.pcs[p], q)
    ensures p in View(s, q).at && View(s, q).at[p] != Out
    ensures QStep(View(s, q), p).at.Keys == s.pcs.Keys
    ensures CallEffect(s, Step(s, p, c), p, q, QStep(View(s, q), p))
  {
    hide QStep;
    OthersStay(View(s, q), p);
  }

  lemma ViewOfCall(s: Sys, t: Sys, p: Pid, q: QId, w: QSys)
    requires CallEffect(s, t, p, q, w) && w.at.Keys == s.pcs.Keys
    requires forall x <- s.pcs :: x != p ==> w.at[x] == SubOf(s.pcs[x], q)
    ensures View(t, q) == w
  {
    assert SubOf(t.pcs[p], q) == w.at[p];
    assert View(t, q).at == w.at;
  }

  lemma ViewBeside(s: Sys, t: Sys, p: Pid, q: QId, w: QSys)
    requires CallEffect(s, t, p, q, w)
    ensures var r := Other(q);
            View(t, r) == Call(View(s, r).(qnext := w.qnext, tokens := w.tokens), p, SubOf(t.pcs[p], r))
  {
    hide Begin, After;
    var r := Other(q);
    assert View(t, r).at == View(s, r).at[p := SubOf(t.pcs[p], r)];
  }

  /** A step outside the QLocks: p moves on, perhaps to the start of a call. */
  predicate PlainEffect(s: Sys, t: Sys, p: Pid) {
    && p in s.pcs && p in t.pcs
    && t.pcs == s.pcs[p := t.pcs[p]]
    && t.x == s.x && t.k == s.k && t.qnext == s.qnext && t.tokens == s.tokens
    && (t.pcs[p].In? ==> t.pcs[p] == Begin(t.pcs[p].at))
  }

  lemma PlainIsEffect(s: Sys, p: Pid, c: Choice)
    requires p in s.pcs && WellPc(s.pcs[p]) && (s.pcs[p].In? ==> s.pcs[p].sub == Out)
    ensures PlainEffect(s, Step(s, p, c), p)
  {
    hide CallStep;
  }

  lemma ViewOfPlain(s: Sys, t: Sys, p: Pid, q: QId)
    requires PlainEffect(s, t, p)
    ensures View(t, q) == Call(View(s, q), p, SubOf(t.pcs[p], q))
  {
    hide Begin;
    assert View(t, q).at == View(s, q).at[p := SubOf(t.pcs[p], q)];
  }

  lemma WellAfter(pc: Pc, q: QId, sub': Sub)
    requires WellPc(pc) && Calling(pc, q)
    requires sub' == Out || (InQLock(pc.sub) && InQLock(sub')) || (InCanQLock(pc.sub) && InCanQLock(sub'))
          || (InQUnlock(pc.sub) && InQUnlock(sub'))
    ensures WellPc(PcAfter(pc, sub'))
  {
  }

  lemma CallKeepsPcs(s: Sys, t: Sys, p: Pid, q: QId, w: QSys)
    requires PcsOk(s) && CallEffect(s, t, p, q, w) && w.qnext.Keys == s.pcs.Keys
    requires WellPc(t.pcs[p]) && p !in t.tokens
    requires forall x <- t.tokens :: x in s.tokens || (x in s.pcs && SubOf(s.pcs[x], q) == QBlock)
    ensures PcsOk(t)
  {
    hide WellPc, PcAfter, Calling;
  }

  lemma InvParts(v: QSys, a: Abs)
    requires QInv(v, a)
    ensures v.qnext.Keys == v.at.Keys && UseOk(v, a) && OwnOk(v, a) && QueueOk(v, a) && ListIs(v, a) && GiveOk(v, a)
    ensures WakeOk(v, a) && StageOk(v, a)
  {
  }

  lemma KeepsPcs(s: Sys, p: Pid, c: Choice, q: QId, a: Abs)
    requires PcsOk(s) && p in s.pcs && Calling(s.pcs[p], q) && QInv(View(s, q), a)
    ensures PcsOk(Step(s, p, c))
  {
    hide QInv, QStep, UseOk, OwnOk, QueueOk, ListIs, GiveOk, WakeOk, StageOk, Step, WellPc;
    var t, v := Step(s, p, c), View(s, q);
    var w := QStep(v, p);
    CallIsEffect(s, p, c, q);
    CallGoesOn(v, p);
    InvParts(v, a);
    StepTouches(v, a, p);
    TokensTo(v, a, p);
    WellAfter(s.pcs[p], q, w.at[p]);
    CallKeepsPcs(s, t, p, q, w);
  }

  lemma PlainKeepsPcs(s: Sys, t: Sys, p: Pid)
    requires PcsOk(s) && PlainEffect(s, t, p) && (s.pcs[p].In? ==> s.pcs[p].sub == Out)
    ensures PcsOk(t)
  {
    BeginsWell(t.pcs[p]);
    hide WellPc, Begin;
  }

  lemma BeginsWell(pc: Pc)
    requires pc.In? ==> pc == Begin(pc.at)
    ensures WellPc(pc)
  {
  }

  /** The lock being called goes on as its own module says. */
  lemma CallKeepsLock(s: Sys, p: Pid, c: Choice, q: QId, a: Abs)
    requires PcsOk(s) && p in s.pcs && Calling(s.pcs[p], q) && QInv(View(s, q), a)
    ensures QInv(View(Step(s, p, c), q), AbsStep(View(s, q), a, p))
  {
    hide QInv, QStep, AbsStep, Step, CallEffect, WellPc;
    var t, v := Step(s, p, c), View(s, q);
    CallIsEffect(s, p, c, q);
    OthersStay(v, p);
    StepKeeps(v, a, p);
    ViewOfCall(s, t, p, q, QStep(v, p));
  }

  /** Process p, not in a call on the lock, starts one or stays away. */
  lemma StartKeeps(v: QSys, b: Abs, p: Pid, s: Sub)
    requires QInv(v, b) && p in v.at && v.at[p] == Out
    requires s != Out ==> CanCall(v, b, p, s)
    ensures QInv(Call(v, p, s), CallAbs(b, p, s))
  {
    hide QInv;
    if s == Out {
      assert v.at[p := Out] == v.at;
    } else {
      CallKeeps(v, b, p, s);
    }
  }

  /** The other lock is not touched, except that p may start a call on it. */
  lemma CallKeepsOther(s: Sys, t: Sys, p: Pid, q: QId, a: Abs, b: Abs)
    requires PcsOk(s) && p in s.pcs && Calling(s.pcs[p], q) && QInv(View(s, q), a) && View(s, q).at[p] != Out
    requires CallEffect(s, t, p, q, QStep(View(s, q), p))
    requires QInv(View(s, Other(q)), b) && (SubOf(t.pcs[p], Other(q)) == UEnter ==> b.own == Held)
    ensures QInv(View(t, Other(q)), CallAbs(b, p, SubOf(t.pcs[p], Other(q))))
  {
    var v, r := View(s, q), Other(q);
    var w, u := QStep(v, p), View(s, r);
    var u' := u.(qnext := w.qnext, tokens := w.tokens);
    hide QInv, QStep, WellPc, PcAfter, Calling, SubOf, View, UseOk, OwnOk, QueueOk, ListIs, GiveOk, WakeOk, StageOk;
    InvParts(v, a);
    InvParts(u, b);
    ViewsApart(s, p, q);
    StepTouches(v, a, p);
    TokensTo(v, a, p);
    OthersStay(v, p);
    UsersSame(v, u, w, p);
    Frame(u, u', b);
    StartsElsewhere(s, t, p, q, w);
    StartKeeps(u', b, p, SubOf(t.pcs[p], r));
    ViewBeside(s, t, p, q, w);
  }

  /** A process in a call on one lock is not in a call on the other. */
  lemma ViewsApart(s: Sys, p: Pid, q: QId)
    requires PcsOk(s) && p in s.pcs && Calling(s.pcs[p], q)
    ensures var v, u := View(s, q), View(s, Other(q));
            && v.at.Keys == u.at.Keys == s.pcs.Keys && u.qnext == v.qnext == s.qnext && u.tokens == v.tokens == s.tokens
            && v.at[p] != Out && u.at[p] == Out
            && (forall x <- s.pcs :: u.at[x] != Out ==> v.at[x] == Out)
            && (p in s.tokens ==> v.at[p] == QBlock)
  {
    hide WellPc;
  }

  lemma ElsewhereIs(pc: Pc, q: QId)
    requires WellPc(pc) && Calling(pc, q)
    ensures forall got :: var r := SubOf(After(pc.at, got), Other(q)); r == Out || r == QEnter || r == UEnter
  {
  }

  lemma StartsElsewhere(s: Sys, t: Sys, p: Pid, q: QId, w: QSys)
    requires PcsOk(s) && CallEffect(s, t, p, q, w)
    ensures var r := SubOf(t.pcs[p], Other(q)); r == Out || r == QEnter || r == UEnter
  {
    var sub' := w.at[p];
    if sub' == Out { ElsewhereIs(s.pcs[p], q); }
    hide After;
  }

  lemma UsersSame(v: QSys, u: QSys, w: QSys, p: Pid)
    requires v.at.Keys == u.at.Keys == v.qnext.Keys == w.qnext.Keys && u.qnext == v.qnext && u.tokens == v.tokens
    requires p in u.at && u.at[p] == Out
    requires forall x <- u.at :: u.at[x] != Out ==> v.at[x] == Out
    requires forall x <- v.at :: x != p && w.qnext[x] != v.qnext[x] ==> Waiting(v.at[x])
    requires forall x <- w.tokens :: x in v.tokens || (x in v.at && v.at[x] == QBlock)
    requires forall x :: x != p && x in v.tokens ==> x in w.tokens
    ensures SameForUsers(u, u.(qnext := w.qnext, tokens := w.tokens))
  {
  }

  // The call steps, part by part.  `pc` and `pc'` are where p was and is.

  predicate Gained(pc: Pc, pc': Pc, q: QId) {
    match q
    case X => !HoldsX(pc) && HoldsX(pc')
    case K => (pc.In? && pc.at == WLockK && pc' == Writing) || (pc.In? && pc.at == RLockK && pc.sub == COk)
  }

  /** What the caller sees of the lock it calls. */
  lemma CallOwns(s: Sys, p: Pid, q: QId, a: Abs)
    requires PcsOk(s) && p in s.pcs && Calling(s.pcs[p], q) && QInv(View(s, q), a)
    ensures var v := View(s, q); var w := QStep(v, p);
            v.at[p] != Out && p in w.at &&
            var pc, pc', b := s.pcs[p], PcAfter(s.pcs[p], w.at[p]), AbsStep(v, a, p);
            && (Gained(pc, pc', q) ==> a.own == By(p) && b.own == Held)
            && (!Gained(pc, pc', q) ==> (b.own == Held <==> a.own == Held))
  {
    hide QInv, QStep, AbsStep, UseOk, OwnOk, QueueOk, ListIs, GiveOk, WakeOk, StageOk;
    var v := View(s, q);
    InvParts(v, a);
    Getting(v, a, p);
    OthersStay(v, p);
    CallGoesOn(v, p);
  }

  /** Who has x after the step of a call. */
  lemma XAfter(s: Sys, t: Sys, g: Ghosts, p: Pid, q: QId, w: QSys)
    requires CallEffect(s, t, p, q, w) && (HoldsX(s.pcs[p]) ==> g.ax.own == Held)
    requires q == X ==> var b := AbsStep(View(s, X), g.ax, p);
                        && (Gained(s.pcs[p], t.pcs[p], X) ==> g.ax.own == By(p) && b.own == Held)
                        && (!Gained(s.pcs[p], t.pcs[p], X) ==> (b.own == Held <==> g.ax.own == Held))
    ensures var g', had, has := GhostStep(s, g, p, t.pcs[p]), HoldsX(s.pcs[p]), HoldsX(t.pcs[p]);
            if had == has then g'.xh == g.xh && (g'.ax.own == Held <==> g.ax.own == Held)
            else if has then g.ax.own != Held && g'.xh == Some(p) && g'.ax.own == Held
            else g'.xh == None && g'.ax.own != Held
  {
    hide AbsStep, View, Counted, HoldsL;
  }

  lemma CallKeepsX(s: Sys, t: Sys, g: Ghosts, p: Pid, q: QId, w: QSys)
    requires PcsOk(s) && XOk(s, g) && CallEffect(s, t, p, q, w)
    requires q == X ==> var b := AbsStep(View(s, X), g.ax, p);
                        && (Gained(s.pcs[p], t.pcs[p], X) ==> g.ax.own == By(p) && b.own == Held)
                        && (!Gained(s.pcs[p], t.pcs[p], X) ==> (b.own == Held <==> g.ax.own == Held))
    ensures XOk(t, GhostStep(s, g, p, t.pcs[p]))
  {
    hide AbsStep, View, GhostStep, HoldsX, Gained, PcsOk, PcAfter, Calling;
    XAfter(s, t, g, p, q, w);
  }

  /** A call changes neither who is counted nor who has l. */
  lemma CallClasses(pc: Pc, q: QId, sub': Sub)
    requires WellPc(pc) && Calling(pc, q)
    ensures var pc' := PcAfter(pc, sub');
            && Counted(pc) == Counted(pc') && HoldsL(pc) == HoldsL(pc')
            && (pc' == Writing <==> pc.at == WLockK && sub' == Out)
            && (pc'.In? && (pc'.at == RLockK || pc'.at == RunK) ==> pc'.at == pc.at)
            && (q == X ==> !HoldsL(pc) && pc.at != RLockK && pc.at != RunK && SubOf(pc', K) != UEnter && pc' != Writing)
  {
  }

  lemma CallKeepsL(s: Sys, t: Sys, g: Ghosts, p: Pid, q: QId, w: QSys)
    requires PcsOk(s) && LOk(s, g) && CallEffect(s, t, p, q, w)
    ensures LOk(t, GhostStep(s, g, p, t.pcs[p]))
  {
    CallClasses(s.pcs[p], q, w.at[p]);
    hide AbsStep, View, WellPc, AbsAfter, PcAfter, Calling, HoldsL;
  }

  lemma CallKeepsCount(s: Sys, t: Sys, g: Ghosts, p: Pid, q: QId, w: QSys)
    requires PcsOk(s) && CountOk(s, g) && CallEffect(s, t, p, q, w)
    ensures CountOk(t, GhostStep(s, g, p, t.pcs[p])) && GhostStep(s, g, p, t.pcs[p]).rd == g.rd
  {
    CallClasses(s.pcs[p], q, w.at[p]);
    hide AbsStep, View, WellPc, AbsAfter, PcAfter, Calling, Counted;
  }

  lemma BesideSame(s: Sys, t: Sys, g: Ghosts, p: Pid, w: QSys)
    requires PcsOk(s) && CallEffect(s, t, p, X, w)
    ensures AbsAfter(s, g.ak, K, p, t.pcs[p]) == g.ak && s.pcs[p].In? && s.pcs[p] != Writing
  {
    hide AbsStep, View;
    CallClasses(s.pcs[p], X, w.at[p]);
  }

  lemma XCallKeepsK(s: Sys, t: Sys, g: Ghosts, p: Pid, w: QSys)
    requires PcsOk(s) && LOk(s, g) && CountOk(s, g) && KOk(s, g) && CallEffect(s, t, p, X, w)
    ensures KOk(t, GhostStep(s, g, p, t.pcs[p]))
  {
    hide AbsAfter, SubOf, WellPc, PcAfter, HoldsL, HoldsX, Counted, CountOk, Calling, XOk, View;
    CallClasses(s.pcs[p], X, w.at[p]);
    CallKeepsCount(s, t, g, p, X, w);
    BesideSame(s, t, g, p, w);
  }

  /** The unchecked canqlock goes its one way: past the spinlock, and to
      success if and only if p is the first reader. */
  predicate GoesItsWay(pc: Pc, sub': Sub, readers: int)
    requires pc.In?
  {
    && (pc.sub == CEnter ==> sub' == CTest)
    && (pc.sub == CTest ==> sub' == if readers > 1 then CFail else CSet)
    && (pc.sub == CSet ==> sub' == COk)
    && (pc.sub == COk || pc.sub == CFail ==> sub' == Out)
  }

  predicate OwnFollows(s: Sys, t: Sys, g: Ghosts, p: Pid)
    requires p in s.pcs && p in t.pcs
  {
    var b := AbsAfter(s, g.ak, K, p, t.pcs[p]);
    && (Gained(s.pcs[p], t.pcs[p], K) ==> g.ak.own == By(p) && b.own == Held)
    && (!Gained(s.pcs[p], t.pcs[p], K) ==> (b.own == Held <==> g.ak.own == Held))
  }

  lemma WriterIs(pc: Pc)
    requires pc.In? && (pc.at == WLockK || pc.at == WunK)
    ensures !HoldsL(pc) && !Counted(pc)
  {
  }

  lemma WriterKeepsK(s: Sys, t: Sys, g: Ghosts, p: Pid, w: QSys)
    requires PcsOk(s) && LOk(s, g) && CountOk(s, g) && KOk(s, g) && CallEffect(s, t, p, K, w)
    requires s.pcs[p].at == WLockK || s.pcs[p].at == WunK
    requires OwnFollows(s, t, g, p)
    ensures KOk(t, GhostStep(s, g, p, t.pcs[p]))
  {
    hide AbsStep, View, WellPc, Counted, AbsAfter, CountOk, HoldsL, HoldsX, SubOf;
    WriterIs(s.pcs[p]);
    CallClasses(s.pcs[p], K, w.at[p]);
    CallKeepsCount(s, t, g, p, K, w);
  }

  lemma FirstReaderKeepsK(s: Sys, t: Sys, g: Ghosts, p: Pid, w: QSys)
    requires PcsOk(s) && LOk(s, g) && CountOk(s, g) && KOk(s, g) && PathOk(s, g) && CallEffect(s, t, p, K, w)
    requires s.pcs[p].at == RLockK && GoesItsWay(s.pcs[p], w.at[p], s.readers)
    requires OwnFollows(s, t, g, p)
    ensures KOk(t, GhostStep(s, g, p, t.pcs[p]))
  {
    hide AbsStep, View;
    assert InCanQLock(s.pcs[p].sub) by { assert WellPc(s.pcs[p]); }
    CallKeepsCount(s, t, g, p, K, w);
    assert HoldsL(s.pcs[p]) && Counted(s.pcs[p]);
  }

  lemma LastReaderKeepsK(s: Sys, t: Sys, g: Ghosts, p: Pid, w: QSys)
    requires PcsOk(s) && LOk(s, g) && CountOk(s, g) && KOk(s, g) && PathOk(s, g) && CallEffect(s, t, p, K, w)
    requires s.pcs[p].at == RunK
    requires OwnFollows(s, t, g, p)
    ensures KOk(t, GhostStep(s, g, p, t.pcs[p]))
  {
    hide AbsStep, View, WellPc;
    CallKeepsCount(s, t, g, p, K, w);
    assert HoldsL(s.pcs[p]);
  }

  lemma CallKeepsPath(s: Sys, t: Sys, g: Ghosts, p: Pid, q: QId, w: QSys)
    requires PcsOk(s) && CountOk(s, g) && PathOk(s, g) && CallEffect(s, t, p, q, w)
    requires s.pcs[p].at == RLockK ==> GoesItsWay(s.pcs[p], w.at[p], s.readers)
    ensures PathOk(t, GhostStep(s, g, p, t.pcs[p]))
  {
    hide AbsStep, View;
    CallKeepsCount(s, t, g, p, q, w);
    assert s.pcs[p].at == RLockK ==> p in g.rd;
  }

  // The steps outside the QLocks, statement by statement.

  predicate Outside(pc: Pc) { pc.In? ==> pc.sub == Out }

  predicate CoreOk(s: Sys, g: Ghosts) {
    XOk(s, g) && LOk(s, g) && CountOk(s, g) && KOk(s, g) && PathOk(s, g)
  }

  /** A move that changes what nobody has. */
  predicate Quiet(pc: Pc, pc': Pc) {
    && HoldsX(pc) == HoldsX(pc') && !HoldsL(pc) && !HoldsL(pc') && Counted(pc) == Counted(pc')
    && pc != Writing && pc' != Writing
    && (pc'.In? ==> pc'.at != RLockK && pc'.at != RunK)
  }

  lemma QuietKeeps(s: Sys, t: Sys, g: Ghosts, p: Pid)
    requires CoreOk(s, g) && p in s.pcs && p in t.pcs && t.pcs == s.pcs[p := t.pcs[p]]
    requires Quiet(s.pcs[p], t.pcs[p]) && t.l == s.l && t.readers == s.readers
    ensures CoreOk(t, g)
  {
    assert g.lh != Some(p);
    hide HoldsX, HoldsL, Counted;
  }

  lemma QuietStarts(s: Sys, p: Pid, c: Choice)
    requires p in s.pcs && (s.pcs[p] == Idle || s.pcs[p] == Reading)
    ensures var t := Step(s, p, c);
            && Quiet(s.pcs[p], t.pcs[p]) && t.l == s.l && t.readers == s.readers && t.pcs == s.pcs[p := t.pcs[p]]
            && SubOf(t.pcs[p], X) != UEnter && SubOf(t.pcs[p], K) != UEnter
            && !(s.pcs[p].In? && s.pcs[p].at == RLockK)
  {
  }

  lemma IdleOrReadingKeeps(s: Sys, g: Ghosts, p: Pid, c: Choice)
    requires CoreOk(s, g) && p in s.pcs && (s.pcs[p] == Idle || s.pcs[p] == Reading)
    ensures CoreOk(Step(s, p, c), GhostStep(s, g, p, Step(s, p, c).pcs[p]))
  {
    var t := Step(s, p, c);
    QuietStarts(s, p, c);
    QuietKeeps(s, t, g, p);
    hide CoreOk, Step, HoldsX, HoldsL, Counted, AbsStep, View;
    assert GhostStep(s, g, p, t.pcs[p]) == g;
  }

  lemma WritingKeeps(s: Sys, g: Ghosts, p: Pid, c: Choice)
    requires PcsOk(s) && CoreOk(s, g) && p in s.pcs && s.pcs[p] == Writing
    ensures CoreOk(Step(s, p, c), GhostStep(s, g, p, Step(s, p, c).pcs[p]))
  {
    var pc, pc' := s.pcs[p], Step(s, p, c).pcs[p];
    assert HoldsX(pc) && HoldsX(pc') && !HoldsL(pc) && !HoldsL(pc') && !Counted(pc) && !Counted(pc');
    hide AbsStep, View, CallStep, WellPc, HoldsX, HoldsL, Counted;
  }

  lemma RLockLIs(s: Sys, g: Ghosts, p: Pid, c: Choice)
    requires p in s.pcs && s.pcs[p] == In(RLockL, Out)
    ensures var t, next := Step(s, p, c), In(RLockInc, Out);
            && t == (if s.l then s else s.(l := true, pcs := s.pcs[p := next]))
            && GhostStep(s, g, p, t.pcs[p]) == (if s.l then g else g.(lh := Some(p)))
            && HoldsX(s.pcs[p]) && HoldsX(next) && !HoldsL(s.pcs[p]) && HoldsL(next) && !Counted(s.pcs[p]) && !Counted(next)
  {
    hide AbsStep, View, CallStep;
  }

  lemma RLockLKeeps(s: Sys, g: Ghosts, p: Pid, c: Choice)
    requires PcsOk(s) && CoreOk(s, g) && p in s.pcs && s.pcs[p] == In(RLockL, Out)
    ensures CoreOk(Step(s, p, c), GhostStep(s, g, p, Step(s, p, c).pcs[p]))
  {
    hide Step, GhostStep, HoldsX, HoldsL, Counted;
    RLockLIs(s, g, p, c);
  }

  lemma RLockIncIs(s: Sys, g: Ghosts, p: Pid, c: Choice)
    requires p in s.pcs && s.pcs[p] == In(RLockInc, Out)
    ensures var t := Step(s, p, c);
            && t == s.(readers := s.readers + 1, pcs := s.pcs[p := In(RLockK, CEnter)])
            && GhostStep(s, g, p, t.pcs[p]) == g.(rd := g.rd + {p})
  {
    hide AbsStep, View, CallStep;
  }

  lemma RLockIncCounts(s: Sys, g: Ghosts, t: Sys, p: Pid)
    requires CountOk(s, g) && LOk(s, g) && XOk(s, g) && p in s.pcs && s.pcs[p] == In(RLockInc, Out)
    requires t == s.(readers := s.readers + 1, pcs := s.pcs[p := In(RLockK, CEnter)])
    ensures CountOk(t, g.(rd := g.rd + {p})) && LOk(t, g) && XOk(t, g) && |g.rd + {p}| == |g.rd| + 1
  {
    var pc, pc' := s.pcs[p], t.pcs[p];
    assert HoldsX(pc) && HoldsX(pc') && HoldsL(pc) && HoldsL(pc') && !Counted(pc) && Counted(pc');
    hide HoldsX, HoldsL, Counted;
  }

  lemma RLockIncK(s: Sys, g: Ghosts, t: Sys, p: Pid)
    requires KOk(s, g) && LOk(s, g) && p in s.pcs && s.pcs[p] == In(RLockInc, Out)
    requires t == s.(readers := s.readers + 1, pcs := s.pcs[p := In(RLockK, CEnter)])
    requires |g.rd + {p}| == |g.rd| + 1
    ensures KOk(t, g.(rd := g.rd + {p})) && PathOk(t, g.(rd := g.rd + {p}))
  {
    assert HoldsL(s.pcs[p]);
    assert g.rd != {} <==> |g.rd| > 0;
  }

  /** The counter goes up: the readers have k just if there were any before. */
  lemma RLockIncKeeps(s: Sys, g: Ghosts, p: Pid, c: Choice)
    requires PcsOk(s) && CoreOk(s, g) && p in s.pcs && s.pcs[p] == In(RLockInc, Out)
    ensures CoreOk(Step(s, p, c), GhostStep(s, g, p, Step(s, p, c).pcs[p]))
  {
    var t := Step(s, p, c);
    RLockIncIs(s, g, p, c);
    RLockIncCounts(s, g, t, p);
    RLockIncK(s, g, t, p);
    hide Step, GhostStep;
  }

  lemma RLockUnlIs(s: Sys, g: Ghosts, p: Pid, c: Choice)
    requires p in s.pcs && s.pcs[p] == In(RLockUnl, Out)
    ensures var t, next := Step(s, p, c), In(RLockXu, UEnter);
            && t == s.(l := false, pcs := s.pcs[p := next])
            && GhostStep(s, g, p, t.pcs[p]) == g.(ax := g.ax.(own := By(p)), xh := None, lh := None)
            && HoldsX(s.pcs[p]) && !HoldsX(next) && HoldsL(s.pcs[p]) && !HoldsL(next) && Counted(s.pcs[p]) && Counted(next)
  {
    hide AbsStep, View, CallStep;
  }

  lemma RLockUnlKeeps(s: Sys, g: Ghosts, p: Pid, c: Choice)
    requires PcsOk(s) && CoreOk(s, g) && p in s.pcs && s.pcs[p] == In(RLockUnl, Out)
    ensures CoreOk(Step(s, p, c), GhostStep(s, g, p, Step(s, p, c).pcs[p]))
  {
    hide Step, GhostStep, HoldsX, HoldsL, Counted;
    RLockUnlIs(s, g, p, c);
  }

  lemma RunLIs(s: Sys, g: Ghosts, p: Pid, c: Choice)
    requires p in s.pcs && s.pcs[p] == In(RunL, Out)
    ensures var t, next := Step(s, p, c), In(RunDec, Out);
            && t == (if s.l then s else s.(l := true, pcs := s.pcs[p := next]))
            && GhostStep(s, g, p, t.pcs[p]) == (if s.l then g else g.(lh := Some(p)))
            && !HoldsX(s.pcs[p]) && !HoldsX(next) && !HoldsL(s.pcs[p]) && HoldsL(next) && Counted(s.pcs[p]) && Counted(next)
  {
    hide AbsStep, View, CallStep;
  }

  lemma RunLKeeps(s: Sys, g: Ghosts, p: Pid, c: Choice)
    requires PcsOk(s) && CoreOk(s, g) && p in s.pcs && s.pcs[p] == In(RunL, Out)
    ensures CoreOk(Step(s, p, c), GhostStep(s, g, p, Step(s, p, c).pcs[p]))
  {
    hide Step, GhostStep, HoldsX, HoldsL, Counted;
    RunLIs(s, g, p, c);
  }

  lemma RunDecIs(s: Sys, g: Ghosts, p: Pid, c: Choice)
    requires p in s.pcs && s.pcs[p] == In(RunDec, Out)
    ensures var t, last := Step(s, p, c), s.readers == 1;
            var next, g' := if last then In(RunK, UEnter) else In(RunUnl, Out), GhostStep(s, g, p, t.pcs[p]);
            && t == s.(readers := s.readers - 1, pcs := s.pcs[p := next])
            && g' == g.(ak := g'.ak, kr := if last then false else g.kr, rd := g.rd - {p})
            && g'.ak.own == (if last then By(p) else g.ak.own)
            && !HoldsX(s.pcs[p]) && !HoldsX(next) && HoldsL(s.pcs[p]) && HoldsL(next) && Counted(s.pcs[p]) && !Counted(next)
  {
    hide AbsStep, View, CallStep;
  }

  /** The process with l is the only one at the counter or at k. */
  lemma OthersNotAtK(s: Sys, g: Ghosts, p: Pid)
    requires LOk(s, g) && p in s.pcs && HoldsL(s.pcs[p])
    ensures g.lh == Some(p)
    ensures forall q <- s.pcs :: q != p && s.pcs[q].In? ==> s.pcs[q].at != RLockK && s.pcs[q].at != RunK
  {
    forall q | q in s.pcs && q != p && s.pcs[q].In?
      ensures s.pcs[q].at != RLockK && s.pcs[q].at != RunK
    {
      assert !HoldsL(s.pcs[q]);
    }
  }

  lemma RunDecKeeps(s: Sys, g: Ghosts, p: Pid, c: Choice)
    requires PcsOk(s) && CoreOk(s, g) && p in s.pcs && s.pcs[p] == In(RunDec, Out)
    ensures CoreOk(Step(s, p, c), GhostStep(s, g, p, Step(s, p, c).pcs[p]))
  {
    hide Step, GhostStep, HoldsX, HoldsL, Counted;
    RunDecIs(s, g, p, c);
    OthersNotAtK(s, g, p);
    assert p in g.rd;
    assert |g.rd - {p}| == |g.rd| - 1;
  }

  lemma RunUnlKeeps(s: Sys, g: Ghosts, p: Pid, c: Choice)
    requires PcsOk(s) && CoreOk(s, g) && p in s.pcs && s.pcs[p] == In(RunUnl, Out)
    ensures CoreOk(Step(s, p, c), GhostStep(s, g, p, Step(s, p, c).pcs[p]))
  {
    var pc, pc' := s.pcs[p], Step(s, p, c).pcs[p];
    assert !HoldsX(pc) && !HoldsX(pc') && HoldsL(pc) && !HoldsL(pc') && !Counted(pc) && !Counted(pc');
    hide AbsStep, View, CallStep, WellPc, HoldsX, HoldsL, Counted;
  }

  /** A process calls qunlock only on a lock that a caller has. */
  lemma HeldWhenReleased(s: Sys, g: Ghosts, p: Pid)
    requires CoreOk(s, g) && p in s.pcs
    ensures s.pcs[p] == Writing ==> g.ak.own == Held
    ensures s.pcs[p] == In(RunDec, Out) ==> g.ak.own == Held
    ensures s.pcs[p] == In(RLockUnl, Out) ==> g.ax.own == Held
  {
    var pc := s.pcs[p];
    assert pc == In(RLockUnl, Out) ==> HoldsX(pc);
    assert pc == In(RunDec, Out) ==> HoldsL(pc) && Counted(pc);
    hide HoldsX, HoldsL, Counted, PathOk;
  }

  lemma PlainStarts(s: Sys, p: Pid, c: Choice, q: QId)
    requires p in s.pcs && WellPc(s.pcs[p]) && Outside(s.pcs[p])
    ensures var u := SubOf(Step(s, p, c).pcs[p], q);
            && SubOf(s.pcs[p], q) == Out
            && (u == Out || u == QEnter || u == CEnter || u == UEnter)
            && (u == UEnter ==> if q == X then s.pcs[p] == In(RLockUnl, Out)
                                else s.pcs[p] == Writing || s.pcs[p] == In(RunDec, Out))
  {
    hide CallStep;
  }

  lemma PlainKeepsLock(s: Sys, g: Ghosts, p: Pid, c: Choice, q: QId, a: Abs)
    requires PcsOk(s) && CoreOk(s, g) && p in s.pcs && Outside(s.pcs[p])
    requires a == (if q == X then g.ax else g.ak) && QInv(View(s, q), a)
    ensures var t := Step(s, p, c); QInv(View(t, q), AbsAfter(s, a, q, p, t.pcs[p]))
  {
    var t := Step(s, p, c);
    PlainStarts(s, p, c, q);
    HeldWhenReleased(s, g, p);
    PlainIsEffect(s, p, c);
    ViewOfPlain(s, t, p, q);
    hide QInv, Step, CoreOk, WellPc, SubOf;
    StartKeeps(View(s, q), a, p, SubOf(t.pcs[p], q));
  }

  lemma PlainKeepsCore(s: Sys, g: Ghosts, p: Pid, c: Choice)
    requires PcsOk(s) && CoreOk(s, g) && p in s.pcs && Outside(s.pcs[p])
    ensures CoreOk(Step(s, p, c), GhostStep(s, g, p, Step(s, p, c).pcs[p]))
  {
    hide CoreOk, Step, GhostStep;
    match s.pcs[p]
    case Idle => IdleOrReadingKeeps(s, g, p, c);
    case Reading => IdleOrReadingKeeps(s, g, p, c);
    case Writing => WritingKeeps(s, g, p, c);
    case In(at, _) =>
      if at == RLockL { RLockLKeeps(s, g, p, c); }
      else if at == RLockInc { RLockIncKeeps(s, g, p, c); }
      else if at == RLockUnl { RLockUnlKeeps(s, g, p, c); }
      else if at == RunL { RunLKeeps(s, g, p, c); }
      else if at == RunDec { RunDecKeeps(s, g, p, c); }
      else { assert at == RunUnl by { assert WellPc(s.pcs[p]); } RunUnlKeeps(s, g, p, c); }
  }

  lemma CallKeepsK(s: Sys, t: Sys, g: Ghosts, p: Pid, q: QId, w: QSys)
    requires PcsOk(s) && LOk(s, g) && CountOk(s, g) && KOk(s, g) && PathOk(s, g) && CallEffect(s, t, p, q, w)
    requires s.pcs[p].at == RLockK ==> GoesItsWay(s.pcs[p], w.at[p], s.readers)
    requires q == K ==> OwnFollows(s, t, g, p)
    ensures KOk(t, GhostStep(s, g, p, t.pcs[p]))
  {
    assert q == K ==> s.pcs[p].at == RLockK || s.pcs[p].at == RunK || s.pcs[p].at == WLockK || s.pcs[p].at == WunK;
    hide CallEffect, GhostStep, LOk, CountOk, KOk, PathOk, PcsOk, GoesItsWay, OwnFollows;
    if q == X {
      XCallKeepsK(s, t, g, p, w);
    } else if s.pcs[p].at == RLockK {
      FirstReaderKeepsK(s, t, g, p, w);
    } else if s.pcs[p].at == RunK {
      LastReaderKeepsK(s, t, g, p, w);
    } else {
      WriterKeepsK(s, t, g, p, w);
    }
  }

  lemma CallKeepsCore(s: Sys, t: Sys, g: Ghosts, p: Pid, q: QId)
    requires Inv(s, g) && p in s.pcs && Calling(s.pcs[p], q) && p in View(s, q).at && View(s, q).at[p] != Out
    requires CallEffect(s, t, p, q, QStep(View(s, q), p))
    ensures CoreOk(t, GhostStep(s, g, p, t.pcs[p]))
  {
    hide QInv, QStep, AbsStep, GhostStep, XOk, LOk, CountOk, KOk, PathOk, View, PcsOk, Gained, GoesItsWay;
    var v, a := View(s, q), if q == X then g.ax else g.ak;
    var w := QStep(v, p);
    CallOwns(s, p, q, a);
    WayAtK(s, g, p);
    CallKeepsX(s, t, g, p, q, w);
    CallKeepsL(s, t, g, p, q, w);
    CallKeepsCount(s, t, g, p, q, w);
    CallKeepsPath(s, t, g, p, q, w);
    CallKeepsK(s, t, g, p, q, w);
  }

  /** The unchecked canqlock does not fail for the first reader. */
  lemma WayAtK(s: Sys, g: Ghosts, p: Pid)
    requires Inv(s, g) && p in s.pcs && s.pcs[p].In? && s.pcs[p].sub != Out
    ensures s.pcs[p].at == RLockK ==>
              View(s, K).at[p] != Out && p in QStep(View(s, K), p).at
              && GoesItsWay(s.pcs[p], QStep(View(s, K), p).at[p], s.readers)
  {
    hide QInv, QStep;
    if s.pcs[p].at == RLockK {
      AloneAtK(s, g, p);
      OthersStay(View(s, K), p);
      CallGoesOn(View(s, K), p);
    }
  }

  lemma PlainKeeps(s: Sys, g: Ghosts, p: Pid, c: Choice)
    requires Inv(s, g) && p in s.pcs && Outside(s.pcs[p])
    ensures Inv(Step(s, p, c), GhostStep(s, g, p, Step(s, p, c).pcs[p]))
  {
    var t := Step(s, p, c);
    hide QInv, Step, XOk, LOk, CountOk, KOk, PathOk, View, AbsAfter;
    PlainIsEffect(s, p, c);
    PlainKeepsPcs(s, t, p);
    PlainKeepsLock(s, g, p, c, X, g.ax);
    PlainKeepsLock(s, g, p, c, K, g.ak);
    PlainKeepsCore(s, g, p, c);
  }

  lemma CallGhosts(s: Sys, g: Ghosts, p: Pid, q: QId, pc': Pc)
    requires p in s.pcs && Calling(s.pcs[p], q)
    ensures var g' := GhostStep(s, g, p, pc');
            if q == X then
              SubOf(s.pcs[p], X) != Out && g'.ax == AbsStep(View(s, X), g.ax, p) && g'.ak == CallAbs(g.ak, p, SubOf(pc', K))
            else
              SubOf(s.pcs[p], K) != Out && g'.ak == AbsStep(View(s, K), g.ak, p) && g'.ax == CallAbs(g.ax, p, SubOf(pc', X))
  {
    hide AbsStep, HoldsX, HoldsL, Counted;
  }

  lemma CallKeepsLocks(s: Sys, g: Ghosts, p: Pid, c: Choice, q: QId)
    requires Inv(s, g) && p in s.pcs && Calling(s.pcs[p], q)
    ensures var t := Step(s, p, c); var g' := GhostStep(s, g, p, t.pcs[p]);
            QInv(View(t, X), g'.ax) && QInv(View(t, K), g'.ak)
  {
    var t := Step(s, p, c);
    var a, b := if q == X then g.ax else g.ak, if q == X then g.ak else g.ax;
    hide QInv, Step, QStep, AbsStep, CoreOk, View, CallAbs, GhostStep;
    CallIsEffect(s, p, c, q);
    CallKeepsLock(s, p, c, q, a);
    CallStarts(s, g, p, c, q);
    CallKeepsOther(s, t, p, q, a, b);
    CallGhosts(s, g, p, q, t.pcs[p]);
    hide CallEffect, PcsOk;
  }

  lemma CallKeepsAll(s: Sys, g: Ghosts, p: Pid, c: Choice, q: QId)
    requires Inv(s, g) && p in s.pcs && Calling(s.pcs[p], q)
    ensures Inv(Step(s, p, c), GhostStep(s, g, p, Step(s, p, c).pcs[p]))
  {
    var t := Step(s, p, c);
    hide QInv, Step, QStep, AbsStep, XOk, LOk, CountOk, KOk, PathOk, View, CallEffect, PcsOk, GhostStep;
    CallIsEffect(s, p, c, q);
    KeepsPcs(s, p, c, q, if q == X then g.ax else g.ak);
    CallKeepsLocks(s, g, p, c, q);
    CallKeepsCore(s, t, g, p, q);
  }

  /** Every access of every process keeps the invariant. */
  lemma Keeps(s: Sys, g: Ghosts, p: Pid, c: Choice)
    requires Inv(s, g) && p in s.pcs
    ensures Inv(Step(s, p, c), GhostStep(s, g, p, Step(s, p, c).pcs[p]))
  {
    if Outside(s.pcs[p]) {
      PlainKeeps(s, g, p, c);
    } else {
      assert WellPc(s.pcs[p]);
      hide Inv, Step, GhostStep;
      CallKeepsAll(s, g, p, c, if Calls(s.pcs[p].at, X) then X else K);
    }
  }

  lemma CallStarts(s: Sys, g: Ghosts, p: Pid, c: Choice, q: QId)
    requires PcsOk(s) && XOk(s, g) && p in s.pcs && Calling(s.pcs[p], q)
    ensures SubOf(Step(s, p, c).pcs[p], Other(q)) == UEnter ==> (if q == X then g.ak else g.ax).own == Held
  {
    hide Step, QStep, View;
    CallIsEffect(s, p, c, q);
  }

  // ------------------------------------------------------------------
  // Whole runs

  function Nobody(): Ghosts {
    Ghosts(Abs(Free, [], None, None), Abs(Free, [], None, None), None, None, None, false, {})
  }

  lemma StartsWell(s: Sys)
    requires Init(s)
    ensures Inv(s, Nobody())
  {
    UnusedLock(View(s, X));
    UnusedLock(View(s, K));
    hide QInv;
  }

  lemma UnusedLock(v: QSys)
    requires v.lk == QLock(false, false, None, None) && v.tokens == {} && v.qnext.Keys == v.at.Keys
    requires forall p <- v.at :: v.at[p] == Out
    ensures QInv(v, Abs(Free, [], None, None))
  {
  }

  lemma {:induction false} RunInv(ss: seq<Sys>, i: nat) returns (g: Ghosts)
    requires Run(ss) && i < |ss|
    ensures Inv(ss[i], g)
  {
    hide Inv, Init, Step, GhostStep;
    if i == 0 {
      StartsWell(ss[0]);
      g := Nobody();
    } else {
      var h := RunInv(ss, i - 1);
      assert Next(ss[i - 1], ss[i]);
      var p, c :| Moves(ss[i - 1], ss[i], p, c);
      Keeps(ss[i - 1], h, p, c);
      g := GhostStep(ss[i - 1], h, p, ss[i].pcs[p]);
    }
  }

  /** In every interleaving of any number of processes no writer has the lock
      together with a reader or another writer. */
  lemma MutualExclusion(ss: seq<Sys>, i: nat, w: Pid, p: Pid)
    requires Run(ss) && i < |ss| && w in ss[i].pcs && p in ss[i].pcs && ss[i].pcs[w] == Writing
    ensures ss[i].pcs[p] != Reading
    ensures ss[i].pcs[p] == Writing ==> p == w
  {
    var g := RunInv(ss, i);
    Exclusion(ss[i], g, w, p);
  }

  /** The canqlock whose result rlock throws away meets no spinlock, succeeds
      for the first reader and fails for all others. */
  lemma UncheckedCanqlock(ss: seq<Sys>, i: nat, p: Pid)
    requires Run(ss) && i < |ss| && p in ss[i].pcs && ss[i].pcs[p].In? && ss[i].pcs[p].at == RLockK
    ensures ss[i].pcs[p].sub == CEnter ==> !ss[i].k.use
    ensures ss[i].pcs[p].sub == CTest ==> (ss[i].k.locked <==> ss[i].readers > 1)
  {
    var g := RunInv(ss, i);
    AloneAtK(ss[i], g, p);
  }

  predicate Asleep(s: Sys, p: Pid)
    requires p in s.pcs
  {
    s.pcs[p].In? && s.pcs[p].sub == QBlock && p !in s.tokens
  }

  /** Everybody is idle or asleep. */
  predicate AllStill(s: Sys) {
    forall r <- s.pcs :: s.pcs[r] == Idle || Asleep(s, r)
  }

  lemma Sleeping(v: QSys, a: Abs, p: Pid)
    requires QInv(v, a) && p in v.at && v.at[p] == QBlock
    requires forall r <- v.at :: v.at[r] == Out || (v.at[r] == QBlock && r !in v.tokens)
    ensures a.own == Held
  {
    hide UseOk, ListIs, StageOk, Members;
    MembersNonempty(a.queue);
  }

  lemma MembersNonempty(queue: seq<Pid>)
    ensures Members(queue) != {} ==> queue != []
  {
  }

  /** If everybody is asleep, a lock somebody sleeps on is with a caller. */
  lemma SleeperHasCaller(s: Sys, g: Ghosts, p: Pid, q: QId)
    requires Inv(s, g) && AllStill(s) && p in s.pcs && SubOf(s.pcs[p], q) != Out
    ensures (if q == X then g.ax else g.ak).own == Held
  {
    hide QInv, XOk, LOk, CountOk, KOk, PathOk, WellPc;
    Sleeping(View(s, q), if q == X then g.ax else g.ak, p);
  }

  lemma NobodyHasK(s: Sys, g: Ghosts)
    requires PcsOk(s) && LOk(s, g) && CountOk(s, g) && KOk(s, g) && AllStill(s)
    ensures g.ak.own != Held
  {
    forall r | r in s.pcs
      ensures !Counted(s.pcs[r]) && !HoldsL(s.pcs[r]) && s.pcs[r] != Writing
    {
      assert WellPc(s.pcs[r]);
    }
    assert g.rd == {};
    hide Counted, HoldsL, WellPc;
  }

  lemma NobodyHasX(s: Sys, g: Ghosts)
    requires PcsOk(s) && XOk(s, g) && AllStill(s) && forall p <- s.pcs :: SubOf(s.pcs[p], K) == Out
    ensures g.ax.own != Held
  {
    forall r | r in s.pcs
      ensures !HoldsX(s.pcs[r])
    {
      assert WellPc(s.pcs[r]);
    }
  }

  /** No wake-up is ever lost: if nobody reads or writes and everybody in a
      call is asleep, then nobody is in a call. */
  lemma NoLostWakeup(ss: seq<Sys>, i: nat, p: Pid)
    requires Run(ss) && i < |ss| && AllStill(ss[i]) && p in ss[i].pcs
    ensures ss[i].pcs[p] == Idle
  {
    var s := ss[i];
    var g := RunInv(ss, i);
    hide QInv, XOk, LOk, CountOk, KOk, PathOk, WellPc;
    NobodyHasK(s, g);
    forall r | r in s.pcs
      ensures SubOf(s.pcs[r], K) == Out
    {
      if SubOf(s.pcs[r], K) != Out { SleeperHasCaller(s, g, r, K); }
    }
    NobodyHasX(s, g);
    if SubOf(s.pcs[p], X) != Out { SleeperHasCaller(s, g, p, X); }
    if s.pcs[p] != Idle { StillIsCalling(s, p); }
  }

  lemma StillIsCalling(s: Sys, p: Pid)
    requires PcsOk(s) && AllStill(s) && p in s.pcs && s.pcs[p] != Idle
    ensures SubOf(s.pcs[p], X) != Out || SubOf(s.pcs[p], K) != Out
  {
  }

  /** p is in a call, and its next access leaves everything as it is. */
  predicate Stuck(s: Sys, p: Pid)
    requires p in s.pcs
  {
    s.pcs[p].In? && Step(s, p, DoRLock) == s
  }

  /** An access that changes nothing is a spin, or a sleep not yet over. */
  predicate Waits(s: Sys, p: Pid)
    requires p in s.pcs && s.pcs[p].In?
  {
    var at, sub := s.pcs[p].at, s.pcs[p].sub;
    if sub == QBlock then p !in s.tokens
    else if sub == Out then (at == RLockL || at == RunL) && s.l
    else (sub == QEnter || sub == UEnter) && if Calls(at, X) then s.x.use else s.k.use
  }

  lemma StuckHow(s: Sys, p: Pid)
    requires PcsOk(s) && p in s.pcs && Stuck(s, p)
    ensures Waits(s, p)
  {
    hide QStep, CallStep, After;
    var at, sub := s.pcs[p].at, s.pcs[p].sub;
    assert WellPc(s.pcs[p]);
    if sub != Out {
      var q := if Calls(at, X) then X else K;
      CallMoves(s, p, at, sub, q);
      QStuck(View(s, q), p);
    }
  }

  lemma CallMoves(s: Sys, p: Pid, at: At, sub: Sub, q: QId)
    requires p in s.pcs && s.pcs[p] == In(at, sub) && sub != Out && Calls(at, q) && (q == X <==> Calls(at, X))
    ensures CallStep(s, p, at, sub) == s ==> Now(View(s, q), p) == sub
  {
    hide QStep, Calls;
    var now := Now(View(s, q), p);
    assert CallStep(s, p, at, sub).pcs[p] == if now == Out then After(at, sub == COk) else In(at, now);
    AfterLeaves(at, sub == COk);
  }

  lemma AfterLeaves(at: At, got: bool)
    ensures After(at, got).In? ==> After(at, got).at != at
  {
  }

  lemma QStuck(v: QSys, p: Pid)
    requires p in v.at && v.at[p] != Out
    ensures Now(v, p) == v.at[p] ==>
              if v.at[p] == QBlock then p !in v.tokens else (v.at[p] == QEnter || v.at[p] == UEnter) && v.lk.use
  {
  }

  lemma WaitsOutside(s: Sys, p: Pid)
    requires p in s.pcs && s.pcs[p].In? && WellPc(s.pcs[p]) && Waits(s, p)
    ensures !InUse(SubOf(s.pcs[p], X)) && !InUse(SubOf(s.pcs[p], K))
    ensures HoldsL(s.pcs[p]) ==> s.k.use
  {
  }

  /** Somebody is inside a spinlock that is taken, and goes on. */
  lemma SpinlocksFree(s: Sys, g: Ghosts)
    requires Inv(s, g) && forall p <- s.pcs :: s.pcs[p] == Idle || (s.pcs[p].In? && Waits(s, p))
    ensures !s.x.use && !s.k.use && !s.l
  {
    hide QInv, XOk, CountOk, KOk, PathOk, WellPc, InUse, Calls, HoldsL, Waits;
    forall p | p in s.pcs
      ensures !InUse(SubOf(s.pcs[p], X)) && !InUse(SubOf(s.pcs[p], K))
      ensures HoldsL(s.pcs[p]) ==> s.k.use
    {
      if s.pcs[p] != Idle { WaitsOutside(s, p); } else { IdleOutside(); }
    }
    UserThere(View(s, X), g.ax);
    UserThere(View(s, K), g.ak);
  }

  lemma IdleOutside()
    ensures !InUse(Out) && !HoldsL(Idle)
  {
  }

  lemma UserThere(v: QSys, a: Abs)
    requires QInv(v, a) && forall p <- v.at :: !InUse(v.at[p])
    ensures !v.lk.use
  {
    hide InUse, OwnOk, QueueOk, ListIs, GiveOk, WakeOk, StageOk;
  }

  /** While nobody reads or writes, a call under way never waits in vain: some
      process that is in a call changes the state with its next access. */
  lemma SomebodyGoesOn(ss: seq<Sys>, i: nat, p: Pid) returns (r: Pid)
    requires Run(ss) && i < |ss| && p in ss[i].pcs && ss[i].pcs[p].In?
    requires forall r <- ss[i].pcs :: ss[i].pcs[r] == Idle || ss[i].pcs[r].In?
    ensures r in ss[i].pcs && ss[i].pcs[r].In? && forall c :: Step(ss[i], r, c) != ss[i]
  {
    var s := ss[i];
    var g := RunInv(ss, i);
    if forall r <- s.pcs :: s.pcs[r] == Idle || Stuck(s, r) {
      AllAsleep(s, g);
      NoLostWakeup(ss, i, p);
    }
    r :| r in s.pcs && s.pcs[r] != Idle && !Stuck(s, r);
  }

  lemma AllAsleep(s: Sys, g: Ghosts)
    requires Inv(s, g) && forall r <- s.pcs :: s.pcs[r] == Idle || Stuck(s, r)
    ensures AllStill(s)
  {
    hide QInv, XOk, LOk, CountOk, KOk, PathOk, WellPc, Stuck;
    forall r | r in s.pcs && s.pcs[r] != Idle
      ensures s.pcs[r].In? && Waits(s, r)
    {
      StuckHow(s, r);
      StuckIn(s, r);
    }
    SpinlocksFree(s, g);
  }

  lemma StuckIn(s: Sys, p: Pid)
    requires p in s.pcs && Stuck(s, p)
    ensures s.pcs[p].In?
  {
  }
}
