/**
 The FIFO lock of lib9/lock.c as interleaved atomic steps: one step is one
 access to shared memory, taken by any process at any time.  A QLock is a
 spinlock `use`, the flag `locked` and a queue of blocked processes linked
 through their `qnext` fields; `qunlock` hands the lock to the head of the
 queue without clearing `locked`.

 The proof shows that every step is a step of a simple specification, a lock
 with an owner and a FIFO queue, or invisible to it.
 */
module QLockProtocol {
  import opened Basics

  type Pid = nat

  datatype QLock = QLock(use: bool, locked: bool, head: Option<Pid>, tail: Option<Pid>)

  /** Where a process stands in a call on the lock, by its next access. */
  datatype Sub =
    | Out
      // to get the lock
    | QEnter                   // take the spinlock
    | QTest                    // see whether the lock is held
    | QSet                     // it is not: hold it
    | QLeave                   // drop the spinlock, owning the lock
    | QTail                    // it is held: find the last in line
    | QLink(t: Option<Pid>)    // stand behind that one, or first in line
    | QSetTail                 // be the last in line
    | QClearNext               // have nobody behind
    | QUnlockWait              // drop the spinlock, in line
    | QBlock                   // sleep until woken
      // to get it if it is free
    | CEnter                   // try the spinlock once
    | CTest                    // see whether the lock is held
    | CFail                    // it is: drop the spinlock, without the lock
    | CSet                     // it is not: hold it
    | COk                      // drop the spinlock, owning the lock
      // to give it back
    | UEnter                   // take the spinlock
    | UHead                    // find the first in line
    | UNext(p: Pid)            // take that one off the front
    | UTail(p: Pid)            // no last one if nobody is left
    | UUnlock(p: Pid)          // drop the spinlock
    | UReady(p: Pid)           // wake the one taken off, who owns the lock now
    | UClear                   // nobody in line: hold it no more
    | UFree                    // drop the spinlock, the lock being free

  /** A lock as its callers see it; `tokens` are the processes that osready
      has readied and that have not got past osblock yet. */
  datatype QSys = QSys(lk: QLock, qnext: map<Pid, Option<Pid>>, tokens: set<Pid>, at: map<Pid, Sub>)

  predicate InQLock(s: Sub) {
    match s
    case QEnter | QTest | QSet | QLeave | QTail | QLink(_) | QSetTail | QClearNext | QUnlockWait | QBlock => true
    case _ => false
  }

  predicate InCanQLock(s: Sub) {
    s == CEnter || s == CTest || s == CFail || s == CSet || s == COk
  }

  predicate InQUnlock(s: Sub) {
    s != Out && !InQLock(s) && !InCanQLock(s)
  }

  /** The next access of process p in qlock. */
  function QLockStep(v: QSys, p: Pid): QSys
    requires p in v.at && InQLock(v.at[p])
  {
    var lk := v.lk;
    match v.at[p]
    case QEnter => if lk.use then v else v.(lk := lk.(use := true), at := v.at[p := QTest])
    case QTest => v.(at := v.at[p := if !lk.locked then QSet else QTail])
    case QSet => v.(lk := lk.(locked := true), at := v.at[p := QLeave])
    case QLeave => v.(lk := lk.(use := false), at := v.at[p := Out])
    case QTail => v.(at := v.at[p := QLink(lk.tail)])
    case QLink(t) =>
      if t == None then v.(lk := lk.(head := Some(p)), at := v.at[p := QSetTail])
      else v.(qnext := v.qnext[t.value := Some(p)], at := v.at[p := QSetTail])
    case QSetTail => v.(lk := lk.(tail := Some(p)), at := v.at[p := QClearNext])
    case QClearNext => v.(qnext := v.qnext[p := None], at := v.at[p := QUnlockWait])
    case QUnlockWait => v.(lk := lk.(use := false), at := v.at[p := QBlock])
    case QBlock => if p !in v.tokens then v else v.(tokens := v.tokens - {p}, at := v.at[p := Out])
  }

  /** The next access of process p in canqlock. */
  function CanQLockStep(v: QSys, p: Pid): QSys
    requires p in v.at && InCanQLock(v.at[p])
  {
    var lk := v.lk;
    match v.at[p]
    case CEnter => if lk.use then v.(at := v.at[p := Out]) else v.(lk := lk.(use := true), at := v.at[p := CTest])
    case CTest => v.(at := v.at[p := if lk.locked then CFail else CSet])
    case CFail => v.(lk := lk.(use := false), at := v.at[p := Out])
    case CSet => v.(lk := lk.(locked := true), at := v.at[p := COk])
    case COk => v.(lk := lk.(use := false), at := v.at[p := Out])
  }

  /** The next access of process p in qunlock. */
  function QUnlockStep(v: QSys, p: Pid): QSys
    requires p in v.at && InQUnlock(v.at[p])
  {
    var lk := v.lk;
    match v.at[p]
    case UEnter => if lk.use then v else v.(lk := lk.(use := true), at := v.at[p := UHead])
    case UHead => v.(at := v.at[p := if lk.head == None then UClear else UNext(lk.head.value)])
    case UNext(r) =>
      v.(lk := lk.(head := if r in v.qnext then v.qnext[r] else None), at := v.at[p := UTail(r)])
    case UTail(r) => v.(lk := if lk.head == None then lk.(tail := None) else lk, at := v.at[p := UUnlock(r)])
    case UUnlock(r) => v.(lk := lk.(use := false), at := v.at[p := UReady(r)])
    case UReady(r) => v.(tokens := v.tokens + {r}, at := v.at[p := Out])
    case UClear => v.(lk := lk.(locked := false), at := v.at[p := UFree])
    case UFree => v.(lk := lk.(use := false), at := v.at[p := Out])
  }

  /** The next access of process p.  A spin or an osblock that cannot go on
      yet leaves everything as it is. */
  function QStep(v: QSys, p: Pid): QSys
    requires p in v.at && v.at[p] != Out
  {
    if InQLock(v.at[p]) then QLockStep(v, p)
    else if InCanQLock(v.at[p]) then CanQLockStep(v, p)
    else QUnlockStep(v, p)
  }

  // ------------------------------------------------------------------
  // The specification

  /** Held: a caller has the lock.  By(p): process p has it inside a call,
      on its way in (granted) or out (about to release). */
  datatype Own = Free | Held | By(p: Pid)

  /** `user` is the process inside the spinlock, `giver` the one between
      taking a process off the queue and readying it. */
  datatype Abs = Abs(own: Own, queue: seq<Pid>, user: Option<Pid>, giver: Option<Pid>)

  /** What one access of process p may do to owner and queue. */
  predicate AbsNext(a: Abs, b: Abs, p: Pid) {
    || (b.own == a.own && b.queue == a.queue)                                           // nothing
    || (a.own == Free && a.queue == [] && b.own == By(p) && b.queue == [])               // acquire
    || (a.own != Free && b.own == a.own && p !in a.queue && b.queue == a.queue + [p])    // wait in line
    || (a.own == By(p) && b.own == Held && b.queue == a.queue)                          // return owning
    || (a.own == Held && b.own == By(p) && b.queue == a.queue)                          // start to release
    || (a.own == By(p) && a.queue != [] && b.own == By(a.queue[0]) && b.queue == a.queue[1..])  // hand on
    || (a.own == By(p) && a.queue == [] && b.own == Free && b.queue == [])               // release
  }

  // ------------------------------------------------------------------
  // The invariant

  predicate InUse(s: Sub) {
    match s
    case Out | QEnter | QBlock | CEnter | UEnter | UReady(_) => false
    case _ => true
  }

  predicate Releasing(s: Sub) {
    s == UEnter || s == UHead || s.UNext? || s == UClear
  }

  predicate Owning(s: Sub, p: Pid, waiting: set<Pid>) {
    s == QLeave || s == COk || Releasing(s) || (s == QBlock && p !in waiting)
  }

  function Members(queue: seq<Pid>): set<Pid> {
    set p | p in queue
  }

  lemma MembersJoin(queue: seq<Pid>, p: Pid)
    ensures Members(queue + [p]) == Members(queue) + {p}
    ensures Distinct(queue) && p !in Members(queue) ==> Distinct(queue + [p])
  {
  }

  lemma MembersLeave(queue: seq<Pid>)
    requires queue != [] && Distinct(queue)
    ensures Members(queue[1..]) == Members(queue) - {queue[0]}
    ensures queue[0] in Members(queue) && Distinct(queue[1..])
  {
    assert queue == [queue[0]] + queue[1..];
  }

  predicate Giving(s: Sub) {
    s.UTail? || s.UUnlock? || s.UReady?
  }

  predicate Waiting(s: Sub) {
    s == QSetTail || s == QClearNext || s == QUnlockWait || s == QBlock
  }

  predicate Distinct(q: seq<Pid>) {
    forall i, j :: 0 <= i < j < |q| ==> q[i] != q[j]
  }

  /** `head`, `tail` and the `qnext` links spell the queue, except for what
      the process inside the spinlock (at `stage`) has not written yet. */
  predicate ListOk(v: QSys, queue: seq<Pid>, user: Option<Pid>, stage: Sub) {
    var last := |queue| - 1;
    && v.lk.head == (if queue == [] then None else Some(queue[0]))
    && (forall i :: 0 <= i < |queue| ==> queue[i] in v.qnext)
    && (forall i :: 0 <= i < last ==> v.qnext[queue[i]] == Some(queue[i + 1]))
    && (if stage == QSetTail then queue != [] && user == Some(queue[last])
        else if stage == QClearNext then queue != [] && user == Some(queue[last]) && v.lk.tail == user
        else if stage.UTail? && queue == [] then true
        else if queue == [] then v.lk.tail == None
        else v.lk.tail == Some(queue[last]) && v.qnext[queue[last]] == None)
  }

  function StageOf(v: QSys, user: Option<Pid>): Sub {
    if user.Some? && user.value in v.at then v.at[user.value] else Out
  }

  /** The spinlock excludes: its flag is set just while one process is inside. */
  predicate UseOk(v: QSys, a: Abs) {
    && v.lk.use == a.user.Some?
    && (a.user.Some? ==> a.user.value in v.at)
    && (forall p <- v.at :: InUse(v.at[p]) <==> a.user == Some(p))
  }

  /** One owner, and `locked` says whether there is one. */
  predicate OwnOk(v: QSys, a: Abs) {
    && v.lk.locked == (a.own != Free)
    && (a.own.By? ==> a.own.p in v.at)
    && (forall p <- v.at :: Owning(v.at[p], p, Members(a.queue)) <==> a.own == By(p))
  }

  /** The queue is the waiting processes, and only a held lock has one. */
  predicate QueueOk(v: QSys, a: Abs) {
    && Distinct(a.queue)
    && (forall p <- Members(a.queue) :: p in v.at && Waiting(v.at[p]))
    && (forall p <- v.at :: Waiting(v.at[p]) && v.at[p] != QBlock ==> p in Members(a.queue))
    && (a.queue != [] ==> a.own != Free)
  }

  /** Whoever took a process off the queue and has not readied it yet did so
      alone, and that process owns the lock. */
  predicate GiveOk(v: QSys, a: Abs) {
    && (forall p <- v.at :: Giving(v.at[p]) <==> a.giver == Some(p))
    && (a.giver.Some? ==> a.giver.value in v.at && var r := v.at[a.giver.value].p;
                          a.own == By(r) && r in v.at && v.at[r] == QBlock && r !in v.tokens)
  }

  /** A blocked process is in the queue, or exactly one wake-up is on its way:
      a token, or the process that is about to ready it. */
  predicate WakeOk(v: QSys, a: Abs) {
    && (forall p <- v.at :: v.at[p] == QBlock && p !in Members(a.queue) && p !in v.tokens ==>
                              a.giver.Some? && a.giver.value in v.at && Giving(v.at[a.giver.value])
                              && v.at[a.giver.value].p == p)
    && (forall p <- v.at :: v.at[p] != Out && p in v.tokens ==> v.at[p] == QBlock && p !in Members(a.queue))
  }

  /** What a process at this stage has learned. */
  predicate StageFact(s: Sub, v: QSys, a: Abs) {
    match s
    case QSet | CSet => a.own == Free
    case QTail => a.own != Free
    case QLink(t) => a.own != Free && t == v.lk.tail
    case UNext(r) => a.queue != [] && r == a.queue[0]
    case UClear => a.queue == []
    case _ => true
  }

  /** What the process inside the spinlock has learned still holds. */
  predicate StageOk(v: QSys, a: Abs) { StageFact(StageOf(v, a.user), v, a) }

  predicate ListIs(v: QSys, a: Abs) { ListOk(v, a.queue, a.user, StageOf(v, a.user)) }

  predicate QInv(v: QSys, a: Abs) {
    && v.qnext.Keys == v.at.Keys
    && UseOk(v, a)
    && OwnOk(v, a)
    && QueueOk(v, a)
    && ListIs(v, a)
    && GiveOk(v, a)
    && WakeOk(v, a)
    && StageOk(v, a)
  }

  /** The specification state after p's access. */
  function AbsStep(v: QSys, a: Abs, p: Pid): Abs
    requires p in v.at
  {
    match v.at[p]
    case QEnter | CEnter | UEnter => if v.lk.use then a else a.(user := Some(p))
    case QSet | CSet => a.(own := By(p))
    case QLeave | COk => a.(own := Held, user := None)
    case QLink(_) => a.(queue := a.queue + [p])
    case QUnlockWait | CFail | UUnlock(_) | UFree => a.(user := None)
    case QBlock => if p in v.tokens then a.(own := Held) else a
    case UNext(r) => if a.queue == [] then a else a.(own := By(r), queue := a.queue[1..], giver := Some(p))
    case UReady(_) => a.(giver := None)
    case UClear => a.(own := Free)
    case _ => a
  }

  // ------------------------------------------------------------------
  // Every step keeps the invariant, part by part.  First what a step is for
  // the process that takes it.

  /** Where p is after its access. */
  function Now(v: QSys, p: Pid): Sub
    requires p in v.at && v.at[p] != Out
  {
    var w := QStep(v, p);
    if p in w.at then w.at[p] else Out
  }

  lemma OnlyMoves(v: QSys, p: Pid)
    requires p in v.at && v.at[p] != Out
    ensures QStep(v, p).at == v.at[p := Now(v, p)]
  {
  }

  lemma Links(v: QSys, p: Pid)
    requires p in v.at && v.at[p] != Out
    ensures QStep(v, p).qnext == match v.at[p]
                                 case QLink(Some(t)) => v.qnext[t := Some(p)]
                                 case QClearNext => v.qnext[p := None]
                                 case _ => v.qnext
  {
  }

  /** Neither does p wait for its turn nor does the queue change. */
  predicate Plain(s: Sub) {
    s != Out && s != QBlock && !s.QLink? && !s.UNext?
  }

  /** p stays in or out of the spinlock, or enters it, or leaves it. */
  lemma UseEffect(v: QSys, a: Abs, p: Pid)
    requires p in v.at && v.at[p] != Out
    requires v.lk.use == a.user.Some? && (InUse(v.at[p]) <==> a.user == Some(p))
    ensures var w, b := QStep(v, p), AbsStep(v, a, p);
            || (b.user == a.user && w.lk.use == v.lk.use && InUse(Now(v, p)) == InUse(v.at[p]))
            || (a.user == None && b.user == Some(p) && w.lk.use && InUse(Now(v, p)))
            || (a.user == Some(p) && b.user == None && !w.lk.use && !InUse(Now(v, p)))
  {
  }

  /** p owns as before, or acquires the lock, or returns with it, or frees it. */
  predicate OwnMoves(v: QSys, a: Abs, p: Pid, w: QSys, b: Abs, was: bool, now: bool) {
    || (b.own == a.own && w.lk.locked == v.lk.locked && now == was)
    || (a.own == Free && b.own == By(p) && w.lk.locked && now)
    || (was && a.own == By(p) && b.own == Held && w.lk.locked == v.lk.locked && !now)
    || (was && a.own == By(p) && b.own == Free && a.queue == [] && !w.lk.locked && !now)
  }

  predicate OwnKnown(v: QSys, a: Abs, p: Pid, m: set<Pid>) {
    && p in v.at && Plain(v.at[p])
    && v.lk.locked == (a.own != Free) && (Owning(v.at[p], p, m) <==> a.own == By(p))
    && (InUse(v.at[p]) ==> StageFact(v.at[p], v, a)) && (v.at[p] == QUnlockWait ==> p in m)
  }

  lemma OwnInQLock(v: QSys, a: Abs, p: Pid, m: set<Pid>, w: QSys, b: Abs)
    requires OwnKnown(v, a, p, m) && InQLock(v.at[p]) && w == QStep(v, p) && b == AbsStep(v, a, p)
    ensures OwnMoves(v, a, p, w, b, Owning(v.at[p], p, m), Owning(Now(v, p), p, m))
  {
  }

  lemma OwnInCanQLock(v: QSys, a: Abs, p: Pid, m: set<Pid>, w: QSys, b: Abs)
    requires OwnKnown(v, a, p, m) && InCanQLock(v.at[p]) && w == QStep(v, p) && b == AbsStep(v, a, p)
    ensures OwnMoves(v, a, p, w, b, Owning(v.at[p], p, m), Owning(Now(v, p), p, m))
  {
  }

  lemma OwnInQUnlock(v: QSys, a: Abs, p: Pid, m: set<Pid>, w: QSys, b: Abs)
    requires OwnKnown(v, a, p, m) && InQUnlock(v.at[p]) && w == QStep(v, p) && b == AbsStep(v, a, p)
    ensures OwnMoves(v, a, p, w, b, Owning(v.at[p], p, m), Owning(Now(v, p), p, m))
  {
  }

  lemma OwnEffect(v: QSys, a: Abs, p: Pid, m: set<Pid>)
    requires OwnKnown(v, a, p, m) && v.at[p] != Out
    ensures OwnMoves(v, a, p, QStep(v, p), AbsStep(v, a, p), Owning(v.at[p], p, m), Owning(Now(v, p), p, m))
  {
    hide QStep, AbsStep, Owning, OwnMoves, Now, StageFact, InQLock, InCanQLock;
    var w, b := QStep(v, p), AbsStep(v, a, p);
    if InQLock(v.at[p]) { OwnInQLock(v, a, p, m, w, b); }
    else if InCanQLock(v.at[p]) { OwnInCanQLock(v, a, p, m, w, b); }
    else { OwnInQUnlock(v, a, p, m, w, b); }
  }

  /** p is in line as before. */
  lemma QueueEffect(v: QSys, a: Abs, p: Pid)
    requires p in v.at && Plain(v.at[p])
    ensures AbsStep(v, a, p).queue == a.queue
    ensures Waiting(Now(v, p)) == Waiting(v.at[p]) && (Now(v, p) == QBlock <==> v.at[p] == QUnlockWait)
  {
  }

  /** p is about to ready the process it was to ready, or does so. */
  lemma GiveEffect(v: QSys, a: Abs, p: Pid)
    requires p in v.at && Plain(v.at[p])
    ensures var w, b, s, t := QStep(v, p), AbsStep(v, a, p), v.at[p], Now(v, p);
            if s.UReady? then Giving(s) && !Giving(t) && w.tokens == v.tokens + {s.p} && b.giver == None && b.own == a.own
            else Giving(t) == Giving(s) && (Giving(s) ==> t.p == s.p) && w.tokens == v.tokens && b.giver == a.giver
  {
  }

  lemma KeepsUse(v: QSys, a: Abs, p: Pid)
    requires UseOk(v, a)
    requires p in v.at && v.at[p] != Out
    ensures UseOk(QStep(v, p), AbsStep(v, a, p))
  {
    hide QStep, AbsStep, InUse, Now;
    OnlyMoves(v, p);
    UseEffect(v, a, p);
  }

  lemma StageInQLock(v: QSys, a: Abs, p: Pid)
    requires UseOk(v, a) && OwnOk(v, a) && QueueOk(v, a) && ListIs(v, a) && WakeOk(v, a) && StageOk(v, a)
    requires p in v.at && InQLock(v.at[p])
    ensures StageOk(QLockStep(v, p), AbsStep(v, a, p))
  {
    hide Distinct, Members;
  }

  lemma StageInCanQLock(v: QSys, a: Abs, p: Pid)
    requires UseOk(v, a) && OwnOk(v, a) && StageOk(v, a)
    requires p in v.at && InCanQLock(v.at[p])
    ensures StageOk(CanQLockStep(v, p), AbsStep(v, a, p))
  {
    hide Distinct, Members;
  }

  lemma StageInQUnlock(v: QSys, a: Abs, p: Pid)
    requires UseOk(v, a) && OwnOk(v, a) && ListIs(v, a) && StageOk(v, a)
    requires p in v.at && InQUnlock(v.at[p])
    ensures StageOk(QUnlockStep(v, p), AbsStep(v, a, p))
  {
    assert Owning(v.at[p], p, Members(a.queue)) <==> a.own == By(p);
    assert InUse(v.at[p]) <==> a.user == Some(p);
    hide Members, OwnOk, UseOk;
  }

  lemma PlainMoves(v: QSys, p: Pid)
    requires p in v.at && Plain(v.at[p])
    ensures v.at[p] != Out && v.at[p] != QBlock && QStep(v, p).at == v.at[p := Now(v, p)]
  {
    hide QStep, Now;
    OnlyMoves(v, p);
  }

  lemma KnowsStage(v: QSys, a: Abs, p: Pid)
    requires UseOk(v, a) && StageOk(v, a) && p in v.at && InUse(v.at[p])
    ensures StageFact(v.at[p], v, a)
  {
    hide StageFact, InUse;
  }

  lemma InLine(v: QSys, a: Abs, p: Pid)
    requires QueueOk(v, a) && p in v.at && v.at[p] == QUnlockWait
    ensures p in Members(a.queue)
  {
    hide Members, Distinct;
  }

  lemma OwnKept(v: QSys, a: Abs, p: Pid)
    requires UseOk(v, a) && OwnOk(v, a) && QueueOk(v, a) && StageOk(v, a)
    requires p in v.at && Plain(v.at[p])
    ensures AbsStep(v, a, p).queue == a.queue
    ensures var m := Members(a.queue);
            OwnMoves(v, a, p, QStep(v, p), AbsStep(v, a, p), Owning(v.at[p], p, m), Owning(Now(v, p), p, m))
  {
    hide QStep, AbsStep, Owning, Members, OwnMoves, Now, StageFact, QueueOk, Plain, StageOk, UseOk;
    PlainMoves(v, p);
    QueueEffect(v, a, p);
    if InUse(v.at[p]) { KnowsStage(v, a, p); }
    if v.at[p] == QUnlockWait { InLine(v, a, p); }
    OwnEffect(v, a, p, Members(a.queue));
  }

  lemma KeepsOwn(v: QSys, a: Abs, p: Pid)
    requires UseOk(v, a) && OwnOk(v, a) && QueueOk(v, a) && StageOk(v, a)
    requires p in v.at && Plain(v.at[p])
    ensures OwnOk(QStep(v, p), AbsStep(v, a, p))
  {
    hide QStep, AbsStep, Owning, Members, UseOk, QueueOk, StageOk, Now, Plain;
    PlainMoves(v, p);
    OwnKept(v, a, p);
  }

  lemma OwnInLink(v: QSys, a: Abs, p: Pid)
    requires OwnOk(v, a)
    requires p in v.at && v.at[p].QLink?
    ensures OwnOk(QLockStep(v, p), AbsStep(v, a, p))
  {
    hide Members;
    MembersJoin(a.queue, p);
  }

  lemma OwnInBlock(v: QSys, a: Abs, p: Pid)
    requires OwnOk(v, a) && WakeOk(v, a)
    requires p in v.at && v.at[p] == QBlock
    ensures OwnOk(QLockStep(v, p), AbsStep(v, a, p))
  {
    hide Members;
  }

  lemma OwnInHandOff(v: QSys, a: Abs, p: Pid)
    requires UseOk(v, a) && OwnOk(v, a) && QueueOk(v, a) && WakeOk(v, a) && StageOk(v, a)
    requires p in v.at && v.at[p].UNext?
    ensures OwnOk(QUnlockStep(v, p), AbsStep(v, a, p))
  {
    hide Distinct, Members, Giving;
    MembersLeave(a.queue);
  }

  lemma FreedEmpty(v: QSys, a: Abs, p: Pid)
    requires UseOk(v, a) && OwnOk(v, a) && QueueOk(v, a) && StageOk(v, a)
    requires p in v.at && Plain(v.at[p])
    ensures v.at[p] != Out && (AbsStep(v, a, p).own == Free ==> a.own == Free || a.queue == [])
  {
    hide QStep, AbsStep, Owning, Members, Now, UseOk, OwnOk, QueueOk, StageOk;
    OwnKept(v, a, p);
  }

  lemma KeepsQueue(v: QSys, a: Abs, p: Pid)
    requires UseOk(v, a) && OwnOk(v, a) && QueueOk(v, a) && StageOk(v, a)
    requires p in v.at && Plain(v.at[p])
    ensures QueueOk(QStep(v, p), AbsStep(v, a, p))
  {
    hide QStep, AbsStep, Owning, Members, Distinct, Waiting, UseOk, OwnOk, StageOk, Now, Plain, OwnMoves;
    PlainMoves(v, p);
    QueueEffect(v, a, p);
    FreedEmpty(v, a, p);
  }

  lemma QueueInLink(v: QSys, a: Abs, p: Pid)
    requires UseOk(v, a) && QueueOk(v, a) && StageOk(v, a)
    requires p in v.at && v.at[p].QLink?
    ensures QueueOk(QLockStep(v, p), AbsStep(v, a, p))
  {
    assert InUse(v.at[p]);
    hide Distinct, Members;
    MembersJoin(a.queue, p);
  }

  lemma QueueInBlock(v: QSys, a: Abs, p: Pid)
    requires QueueOk(v, a) && WakeOk(v, a)
    requires p in v.at && v.at[p] == QBlock
    ensures QueueOk(QLockStep(v, p), AbsStep(v, a, p))
  {
    hide Distinct, Members;
  }

  lemma QueueInHandOff(v: QSys, a: Abs, p: Pid)
    requires UseOk(v, a) && QueueOk(v, a) && StageOk(v, a)
    requires p in v.at && v.at[p].UNext?
    ensures QueueOk(QUnlockStep(v, p), AbsStep(v, a, p))
  {
    assert InUse(v.at[p]);
    hide Distinct, Members;
    MembersLeave(a.queue);
  }

  /** Whoever is being readied owns the lock and has left the queue. */
  lemma GivenOwns(v: QSys, a: Abs)
    requires OwnOk(v, a) && GiveOk(v, a) && a.giver.Some?
    ensures a.giver.value in v.at && var s := v.at[a.giver.value];
            Giving(s) && a.own == By(s.p) && s.p in v.at && v.at[s.p] == QBlock && s.p !in v.tokens && s.p !in Members(a.queue)
  {
    hide Members;
    assert Giving(v.at[a.giver.value]);
    var r := v.at[a.giver.value].p;
    assert Owning(v.at[r], r, Members(a.queue));
  }

  lemma GivenKept(v: QSys, a: Abs, p: Pid)
    requires UseOk(v, a) && OwnOk(v, a) && QueueOk(v, a) && GiveOk(v, a) && StageOk(v, a)
    requires p in v.at && Plain(v.at[p]) && a.giver.Some?
    ensures a.giver.value in v.at && v.at[a.giver.value].p != p && AbsStep(v, a, p).own == a.own
  {
    hide QStep, AbsStep, Owning, Members, Now, UseOk, QueueOk, GiveOk, StageOk;
    GivenOwns(v, a);
    OwnKept(v, a, p);
    assert Owning(v.at[p], p, Members(a.queue)) <==> a.own == By(p);
  }

  lemma KeepsGive(v: QSys, a: Abs, p: Pid)
    requires UseOk(v, a) && OwnOk(v, a) && QueueOk(v, a) && GiveOk(v, a) && StageOk(v, a)
    requires p in v.at && Plain(v.at[p])
    ensures GiveOk(QStep(v, p), AbsStep(v, a, p))
  {
    hide QStep, AbsStep, Owning, Members, Waiting, UseOk, OwnOk, QueueOk, StageOk, Now, Giving, Plain;
    PlainMoves(v, p);
    QueueEffect(v, a, p);
    GiveEffect(v, a, p);
    if a.giver.Some? { GivenKept(v, a, p); }
    assert Giving(v.at[p]) <==> a.giver == Some(p);
  }

  lemma GiveInLink(v: QSys, a: Abs, p: Pid)
    requires GiveOk(v, a)
    requires p in v.at && v.at[p].QLink?
    ensures GiveOk(QLockStep(v, p), AbsStep(v, a, p))
  {
  }

  lemma GiveInBlock(v: QSys, a: Abs, p: Pid)
    requires OwnOk(v, a) && GiveOk(v, a) && WakeOk(v, a) && p in v.at && v.at[p] == QBlock
    ensures GiveOk(QLockStep(v, p), AbsStep(v, a, p))
  {
    assert p in v.tokens ==> Owning(v.at[p], p, Members(a.queue));
    hide Members;
    if a.giver.Some? { GivenOwns(v, a); }
  }

  lemma GiveInHandOff(v: QSys, a: Abs, p: Pid)
    requires UseOk(v, a) && OwnOk(v, a) && QueueOk(v, a) && GiveOk(v, a) && WakeOk(v, a) && StageOk(v, a)
    requires p in v.at && v.at[p].UNext?
    ensures GiveOk(QUnlockStep(v, p), AbsStep(v, a, p))
  {
    hide Distinct, Members;
    MembersLeave(a.queue);
  }

  lemma KeepsWake(v: QSys, a: Abs, p: Pid)
    requires OwnOk(v, a) && QueueOk(v, a) && GiveOk(v, a) && WakeOk(v, a)
    requires p in v.at && Plain(v.at[p])
    ensures WakeOk(QStep(v, p), AbsStep(v, a, p))
  {
    hide QStep, AbsStep, Members, Distinct, OwnOk, Waiting, Now, Giving, Plain;
    PlainMoves(v, p);
    QueueEffect(v, a, p);
    GiveEffect(v, a, p);
    if a.giver.Some? { GivenOwns(v, a); }
    assert Giving(v.at[p]) <==> a.giver == Some(p);
    if v.at[p] == QUnlockWait { InLine(v, a, p); }
  }

  lemma WakeInLink(v: QSys, a: Abs, p: Pid)
    requires WakeOk(v, a)
    requires p in v.at && v.at[p].QLink?
    ensures WakeOk(QLockStep(v, p), AbsStep(v, a, p))
  {
    hide Members;
    MembersJoin(a.queue, p);
  }

  lemma WakeInBlock(v: QSys, a: Abs, p: Pid)
    requires OwnOk(v, a) && GiveOk(v, a) && WakeOk(v, a)
    requires p in v.at && v.at[p] == QBlock
    ensures WakeOk(QLockStep(v, p), AbsStep(v, a, p))
  {
    hide Members;
  }

  lemma WakeInHandOff(v: QSys, a: Abs, p: Pid)
    requires UseOk(v, a) && OwnOk(v, a) && QueueOk(v, a) && GiveOk(v, a) && WakeOk(v, a) && StageOk(v, a)
    requires p in v.at && v.at[p].UNext?
    ensures WakeOk(QUnlockStep(v, p), AbsStep(v, a, p))
  {
    hide Distinct, Members;
    MembersLeave(a.queue);
  }

  lemma ListInQLock(v: QSys, a: Abs, p: Pid)
    requires v.qnext.Keys == v.at.Keys && UseOk(v, a) && QueueOk(v, a) && ListIs(v, a) && StageOk(v, a)
    requires p in v.at && InQLock(v.at[p])
    ensures ListIs(QLockStep(v, p), AbsStep(v, a, p))
  {
    hide Members;
  }

  lemma ListInCanQLock(v: QSys, a: Abs, p: Pid)
    requires v.qnext.Keys == v.at.Keys && UseOk(v, a) && QueueOk(v, a) && ListIs(v, a) && StageOk(v, a)
    requires p in v.at && InCanQLock(v.at[p])
    ensures ListIs(CanQLockStep(v, p), AbsStep(v, a, p))
  {
    hide Distinct, Members;
  }

  lemma ListInQUnlock(v: QSys, a: Abs, p: Pid)
    requires UseOk(v, a) && ListIs(v, a) && StageOk(v, a)
    requires p in v.at && InQUnlock(v.at[p])
    ensures ListIs(QUnlockStep(v, p), AbsStep(v, a, p))
  {
  }

  lemma KeepsKeys(v: QSys, a: Abs, p: Pid)
    requires v.qnext.Keys == v.at.Keys && QueueOk(v, a) && UseOk(v, a) && ListIs(v, a) && StageOk(v, a)
    requires p in v.at && v.at[p] != Out
    ensures QStep(v, p).at.Keys == v.at.Keys && QStep(v, p).qnext.Keys == v.qnext.Keys
  {
    hide QueueOk, UseOk, ListIs, StageOk, InUse, Waiting, QStep, Now;
    OnlyMoves(v, p);
    Links(v, p);
    if v.at[p].QLink? { LinkIsLast(v, a, p); }
  }

  /** The field that a new waiter is linked from is that of another waiter. */
  lemma LinkIsLast(v: QSys, a: Abs, p: Pid)
    requires v.qnext.Keys == v.at.Keys && QueueOk(v, a) && UseOk(v, a) && ListIs(v, a) && StageOk(v, a)
    requires p in v.at && v.at[p].QLink?
    ensures var t := v.at[p].t; t.Some? ==> t.value in v.qnext && Waiting(v.at[t.value])
  {
    hide Distinct, Members;
    if a.queue != [] { MembersLast(a.queue); }
  }

  /** The invariant holds again after any access of any process. */
  lemma StepKeeps(v: QSys, a: Abs, p: Pid)
    requires QInv(v, a) && p in v.at && v.at[p] != Out
    ensures QInv(QStep(v, p), AbsStep(v, a, p))
  {
    hide UseOk, OwnOk, QueueOk, ListIs, GiveOk, WakeOk, StageOk, AbsStep, QLockStep, CanQLockStep, QUnlockStep;
    KeepsUse(v, a, p);
    KeepsKeys(v, a, p);
    if InQLock(v.at[p]) {
      StageInQLock(v, a, p);
      ListInQLock(v, a, p);
    } else if InCanQLock(v.at[p]) {
      StageInCanQLock(v, a, p);
      ListInCanQLock(v, a, p);
    } else {
      StageInQUnlock(v, a, p);
      ListInQUnlock(v, a, p);
    }
    if Plain(v.at[p]) {
      KeepsOwn(v, a, p);
      KeepsQueue(v, a, p);
      KeepsGive(v, a, p);
      KeepsWake(v, a, p);
    } else {
      TurnKeeps(v, a, p);
    }
  }

  /** The steps by which a process joins the queue, leaves it, and goes on. */
  lemma TurnKeeps(v: QSys, a: Abs, p: Pid)
    requires QInv(v, a) && p in v.at && v.at[p] != Out && !Plain(v.at[p])
    ensures var w, b := QStep(v, p), AbsStep(v, a, p); OwnOk(w, b) && QueueOk(w, b) && GiveOk(w, b) && WakeOk(w, b)
  {
    hide UseOk, OwnOk, QueueOk, ListIs, GiveOk, WakeOk, StageOk, AbsStep, QLockStep, CanQLockStep, QUnlockStep;
    if v.at[p].QLink? {
      OwnInLink(v, a, p);
      QueueInLink(v, a, p);
      GiveInLink(v, a, p);
      WakeInLink(v, a, p);
    } else if v.at[p] == QBlock {
      OwnInBlock(v, a, p);
      QueueInBlock(v, a, p);
      GiveInBlock(v, a, p);
      WakeInBlock(v, a, p);
    } else {
      OwnInHandOff(v, a, p);
      QueueInHandOff(v, a, p);
      GiveInHandOff(v, a, p);
      WakeInHandOff(v, a, p);
    }
  }

  /** Each access is a step of the specification, or changes nothing in it:
      the lock has one owner, waiters queue up at the end, and the owner gives
      way to the head of the queue or, when it is empty, to nobody. */
  lemma StepRefines(v: QSys, a: Abs, p: Pid)
    requires QInv(v, a) && p in v.at && v.at[p] != Out
    ensures AbsNext(a, AbsStep(v, a, p), p)
  {
    hide QStep, ListIs, GiveOk, Distinct, Giving;
  }

  // ------------------------------------------------------------------
  // Callers

  /** Process p starts a call. */
  function Call(v: QSys, p: Pid, s: Sub): QSys {
    v.(at := v.at[p := s])
  }

  function CallAbs(a: Abs, p: Pid, s: Sub): Abs {
    if s == UEnter then a.(own := By(p)) else a
  }

  predicate CanCall(v: QSys, a: Abs, p: Pid, s: Sub) {
    p in v.at && v.at[p] == Out && p !in v.tokens && (s == QEnter || s == CEnter || (s == UEnter && a.own == Held))
  }

  lemma CallKeepsOwn(v: QSys, a: Abs, p: Pid, s: Sub)
    requires CanCall(v, a, p, s) && OwnOk(v, a) && UseOk(v, a) && StageOk(v, a)
    ensures OwnOk(Call(v, p, s), CallAbs(a, p, s)) && UseOk(Call(v, p, s), CallAbs(a, p, s))
    ensures StageOk(Call(v, p, s), CallAbs(a, p, s))
  {
    hide Members;
  }

  lemma CallKeepsQueue(v: QSys, a: Abs, p: Pid, s: Sub)
    requires CanCall(v, a, p, s) && QueueOk(v, a) && UseOk(v, a) && ListIs(v, a)
    ensures QueueOk(Call(v, p, s), CallAbs(a, p, s)) && ListIs(Call(v, p, s), CallAbs(a, p, s))
  {
    hide Members, Distinct;
  }

  lemma CallKeepsWake(v: QSys, a: Abs, p: Pid, s: Sub)
    requires CanCall(v, a, p, s) && GiveOk(v, a) && WakeOk(v, a)
    ensures GiveOk(Call(v, p, s), CallAbs(a, p, s)) && WakeOk(Call(v, p, s), CallAbs(a, p, s))
  {
    hide Members;
  }

  lemma CallKeeps(v: QSys, a: Abs, p: Pid, s: Sub)
    requires QInv(v, a) && CanCall(v, a, p, s)
    ensures QInv(Call(v, p, s), CallAbs(a, p, s))
  {
    hide UseOk, OwnOk, QueueOk, ListIs, GiveOk, WakeOk, StageOk;
    CallKeepsOwn(v, a, p, s);
    CallKeepsQueue(v, a, p, s);
    CallKeepsWake(v, a, p, s);
  }

  /** Nothing changes for a lock's users. */
  predicate SameForUsers(v: QSys, w: QSys) {
    && w.lk == v.lk && w.at == v.at && w.qnext.Keys == v.qnext.Keys == v.at.Keys
    && (forall p <- v.at :: v.at[p] != Out ==> (p in v.tokens <==> p in w.tokens))
    && (forall p <- v.at :: Waiting(v.at[p]) ==> w.qnext[p] == v.qnext[p])
  }

  /** A lock does not mind what happens to processes that are not using it. */
  lemma Frame(v: QSys, w: QSys, a: Abs)
    requires QInv(v, a) && SameForUsers(v, w)
    ensures QInv(w, a)
  {
    hide Distinct, UseOk, OwnOk, QueueOk, ListIs, GiveOk, WakeOk, StageOk, SameForUsers;
    FrameList(v, w, a);
    FrameWake(v, w, a);
    FrameRest(v, w, a);
  }

  lemma FrameList(v: QSys, w: QSys, a: Abs)
    requires QueueOk(v, a) && ListIs(v, a) && SameForUsers(v, w)
    ensures ListIs(w, a) && w.qnext.Keys == w.at.Keys
  {
    hide Distinct;
    assert forall i :: 0 <= i < |a.queue| ==> a.queue[i] in Members(a.queue);
  }

  lemma FrameWake(v: QSys, w: QSys, a: Abs)
    requires GiveOk(v, a) && WakeOk(v, a) && SameForUsers(v, w)
    ensures GiveOk(w, a) && WakeOk(w, a)
  {
    hide Members;
  }

  lemma FrameRest(v: QSys, w: QSys, a: Abs)
    requires UseOk(v, a) && OwnOk(v, a) && QueueOk(v, a) && StageOk(v, a) && SameForUsers(v, w)
    ensures UseOk(w, a) && OwnOk(w, a) && QueueOk(w, a) && StageOk(w, a)
  {
    hide Members, Distinct;
  }

  /** What an access of p writes outside the lock belongs to p or to a
      process that waits for this lock. */
  lemma StepTouches(v: QSys, a: Abs, p: Pid)
    requires QueueOk(v, a) && ListIs(v, a) && UseOk(v, a) && StageOk(v, a)
    requires p in v.at && v.at[p] != Out && v.qnext.Keys == v.at.Keys
    ensures var w := QStep(v, p);
            && w.at.Keys == v.at.Keys == w.qnext.Keys
            && (forall x <- v.at :: x != p && w.qnext[x] != v.qnext[x] ==> Waiting(v.at[x]))
  {
    hide QueueOk, UseOk, ListIs, StageOk, InUse, Waiting, QStep;
    KeepsKeys(v, a, p);
    Links(v, p);
    if v.at[p].QLink? { LinkIsLast(v, a, p); }
  }

  lemma MembersLast(queue: seq<Pid>)
    requires queue != []
    ensures queue[|queue| - 1] in Members(queue)
  {
  }

  /** A process that is alone on the lock finds the spinlock free, and
      `locked` says whether a caller has it. */
  lemma Alone(v: QSys, a: Abs, p: Pid)
    requires QInv(v, a) && p in v.at && (forall q <- v.at :: q != p ==> v.at[q] == Out)
    ensures v.lk.use <==> InUse(v.at[p])
    ensures v.at[p] == CTest ==> (v.lk.locked <==> a.own == Held)
  {
    hide QueueOk, ListIs, GiveOk, WakeOk, StageOk, Members;
  }

  /** One lock and processes that release it only when they have it. */
  datatype Client = Client(v: QSys, has: set<Pid>)

  predicate ClientInit(c: Client) {
    && c.v.lk == QLock(false, false, None, None)
    && c.v.tokens == {} && c.has == {}
    && c.v.qnext.Keys == c.v.at.Keys
    && forall p <- c.v.at :: c.v.at[p] == Out
  }

  predicate Gets(v: QSys, p: Pid)
    requires p in v.at
  {
    v.at[p] == QLeave || v.at[p] == COk || (v.at[p] == QBlock && p in v.tokens)
  }

  /** Process p goes on with its call, or starts one: `try` says whether it
      calls canqlock rather than qlock. */
  function ClientStep(c: Client, p: Pid, try: bool): Client
    requires p in c.v.at
  {
    if c.v.at[p] != Out then Client(QStep(c.v, p), if Gets(c.v, p) then c.has + {p} else c.has)
    else if p in c.has then Client(Call(c.v, p, UEnter), c.has - {p})
    else Client(Call(c.v, p, if try then CEnter else QEnter), c.has)
  }

  ghost predicate ClientNext(c: Client, d: Client) {
    exists p, try :: ClientMoves(c, d, p, try)
  }

  predicate ClientMoves(c: Client, d: Client, p: Pid, try: bool) {
    p in c.v.at && d == ClientStep(c, p, try)
  }

  ghost predicate ClientRun(cs: seq<Client>) {
    && cs != []
    && ClientInit(cs[0])
    && forall i :: 0 < i < |cs| ==> ClientNext(cs[i - 1], cs[i])
  }

  ghost predicate ClientInv(c: Client, a: Abs) {
    && QInv(c.v, a)
    && (forall p <- c.v.tokens :: p in c.v.at && c.v.at[p] != Out)
    && (forall p <- c.has :: p in c.v.at && c.v.at[p] == Out)
    && (forall p, q :: p in c.has && q in c.has ==> p == q)
    && (c.has != {} <==> a.own == Held)
  }

  lemma Getting(v: QSys, a: Abs, p: Pid)
    requires UseOk(v, a) && OwnOk(v, a) && StageOk(v, a) && WakeOk(v, a) && p in v.at && v.at[p] != Out
    ensures Gets(v, p) ==> a.own == By(p) && AbsStep(v, a, p).own == Held && QStep(v, p).at[p] == Out
    ensures !Gets(v, p) ==> (AbsStep(v, a, p).own == Held <==> a.own == Held)
  {
    hide Members;
  }

  lemma OthersStay(v: QSys, p: Pid)
    requires p in v.at && v.at[p] != Out
    ensures QStep(v, p).at.Keys == v.at.Keys
    ensures forall q :: q != p && q in v.at ==> QStep(v, p).at[q] == v.at[q]
    ensures forall q :: q != p && q in v.tokens ==> q in QStep(v, p).tokens
  {
  }

  /** A call stays the call it is until it returns. */
  lemma CallGoesOn(v: QSys, p: Pid)
    requires p in v.at && v.at[p] != Out
    ensures var s, t := v.at[p], QStep(v, p).at[p];
            && (InQLock(s) ==> t == Out || InQLock(t))
            && (InCanQLock(s) ==> t == Out || InCanQLock(t))
            && (InQUnlock(s) ==> t == Out || InQUnlock(t))
            && (InQLock(s) ==> (t == Out <==> Gets(v, p)))
            && (s == CEnter && !v.lk.use ==> t == CTest)
            && (s == CTest ==> t == if v.lk.locked then CFail else CSet)
            && (s == CSet ==> t == COk)
            && (s == COk ==> t == Out)
            && (s == CFail ==> t == Out)
  {
  }

  /** A token goes to a blocked process, and is gone once that has left. */
  lemma TokensTo(v: QSys, a: Abs, p: Pid)
    requires GiveOk(v, a) && p in v.at && v.at[p] != Out
    ensures forall q <- QStep(v, p).tokens :: q in v.tokens || (q in v.at && q != p && v.at[q] == QBlock)
    ensures p in v.tokens && p in QStep(v, p).tokens ==> v.at[p] != QBlock
  {
  }

  lemma ClientKeeps(c: Client, a: Abs, p: Pid, try: bool) returns (b: Abs)
    requires ClientInv(c, a) && p in c.v.at
    ensures ClientInv(ClientStep(c, p, try), b) && AbsNext(a, b, p)
  {
    hide UseOk, OwnOk, QueueOk, ListIs, GiveOk, WakeOk, StageOk, QStep, AbsStep;
    if c.v.at[p] != Out {
      b := AbsStep(c.v, a, p);
      StepKeeps(c.v, a, p);
      Getting(c.v, a, p);
      StepRefines(c.v, a, p);
      OthersStay(c.v, p);
      TokensTo(c.v, a, p);
      BlockedOrNot(c.v, a, p);
      assert Gets(c.v, p) ==> c.has == {};
      var d := ClientStep(c, p, try);
      assert forall q <- d.v.tokens :: q in d.v.at && d.v.at[q] != Out;
      assert forall q <- d.has :: q in d.v.at && d.v.at[q] == Out;
      assert d.has != {} <==> b.own == Held;
    } else {
      var s := if p in c.has then UEnter else if try then CEnter else QEnter;
      CallKeeps(c.v, a, p, s);
      b := CallAbs(a, p, s);
      assert p in c.has ==> c.has - {p} == {};
    }
  }

  /** Tokens are for blocked processes only. */
  lemma BlockedOrNot(v: QSys, a: Abs, p: Pid)
    requires WakeOk(v, a) && p in v.at && v.at[p] != Out
    ensures p in v.tokens ==> v.at[p] == QBlock
  {
  }

  /** The process that goes on in the code is the one that moves in the
      specification. */
  ghost predicate MovesAs(c: Client, d: Client, a: Abs, b: Abs) {
    exists p, try :: ClientMoves(c, d, p, try) && AbsNext(a, b, p)
  }

  /** Every run of the code is a run of the specification: read the owner and
      the queue off each state, and each step of a process moves them only as
      AbsNext lets that process. */
  lemma {:induction false} ClientRefines(cs: seq<Client>) returns (specs: seq<Abs>)
    requires ClientRun(cs)
    ensures |specs| == |cs| && specs[0] == Abs(Free, [], None, None)
    ensures forall i :: 0 <= i < |cs| ==> ClientInv(cs[i], specs[i])
    ensures forall i :: 0 < i < |cs| ==> MovesAs(cs[i - 1], cs[i], specs[i - 1], specs[i])
  {
    hide ClientInv, ClientInit, ClientNext, MovesAs;
    var n := |cs| - 1;
    if n == 0 {
      specs := [Abs(Free, [], None, None)];
      ClientStarts(cs[0]);
    } else {
      var before := ClientRefines(cs[..n]);
      assert ClientInv(cs[..n][n - 1], before[n - 1]);
      var b := ClientRefinesNext(cs[n - 1], cs[n], before[n - 1]);
      specs := before + [b];
      forall i | 0 <= i < |cs|
        ensures ClientInv(cs[i], specs[i])
      {
        assert i < n ==> ClientInv(cs[..n][i], before[i]);
      }
      forall i | 0 < i < |cs|
        ensures MovesAs(cs[i - 1], cs[i], specs[i - 1], specs[i])
      {
        assert i < n ==> MovesAs(cs[..n][i - 1], cs[..n][i], before[i - 1], before[i]);
      }
    }
  }

  lemma ClientRefinesNext(c: Client, d: Client, a: Abs) returns (b: Abs)
    requires ClientInv(c, a) && ClientNext(c, d)
    ensures ClientInv(d, b) && MovesAs(c, d, a, b)
  {
    hide ClientInv, ClientStep, AbsNext;
    var p, try :| ClientMoves(c, d, p, try);
    b := ClientKeeps(c, a, p, try);
  }

  lemma ClientStarts(c: Client)
    requires ClientInit(c)
    ensures ClientInv(c, Abs(Free, [], None, None))
  {
  }

  /** In every run, at any moment at most one process has the lock, and then
      `locked` is set and nobody else is on the way in or out. */
  lemma OneOwner(cs: seq<Client>, i: nat, p: Pid, q: Pid)
    requires ClientRun(cs) && i < |cs| && p in cs[i].has
    requires q in cs[i].has || (q in cs[i].v.at && (Gets(cs[i].v, q) || Releasing(cs[i].v.at[q])))
    ensures p == q && cs[i].v.lk.locked
  {
    var specs := ClientRefines(cs);
    HasOne(cs[i], specs[i], p, q);
  }

  lemma HasOne(c: Client, a: Abs, p: Pid, q: Pid)
    requires ClientInv(c, a) && p in c.has
    requires q in c.has || (q in c.v.at && (Gets(c.v, q) || Releasing(c.v.at[q])))
    ensures p == q && c.v.lk.locked
  {
    hide ListIs, GiveOk, Members, Distinct;
  }
}
