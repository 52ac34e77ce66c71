/**
 Memory operands (libinterp/comp-arm.c:463-514) and whole sequences of emitted
 operations: running the finished code does, in order, what the operations say.
 */
module ArmProgram {
  import opened Basics
  import opened Words
  import opened ArmMachine
  import opened ArmConstants
  import opened ArmLiterals

  const RCON := 6

  datatype Inst = Lea | Ldw | Stw

  /** What the emitter is asked for: a word, a constant, a memory operand, or a
      look at the literal table. */
  datatype Op =
    | Emit(w: Word)
    | Check
    | Con(cc: int, o: Word, r: int, opt: bool)
    | Memory(inst: Inst, cc: int, disp: Word, rm: int, r: int)
  {
    /** memc builds a far displacement in RCON, and would lose what is there. */
    predicate Legal() {
      match this
      case Con(cc, o, r, opt) => 0 <= cc < 16 && 0 <= r < 15
      case Memory(inst, cc, disp, rm, r) =>
        0 <= cc < 16 && 0 <= rm < 15 && 0 <= r < 15 && rm != RCON && (inst == Stw ==> r != RCON)
      case _ => true
    }
  }

  function Neg(x: Word): Word {
    (WORD - x) % WORD
  }

  // ------------------------------------------------------------------
  // Both passes

  /** How much has been emitted, how many literals wait, and since where. */
  datatype Layout = Layout(len: nat, count: nat, first: nat)

  function LayoutOf(e: Emitter): Layout
    reads e`code, e`pool
  {
    Layout(|e.code|, |e.pool|, if e.pool == [] then 0 else e.pool[0].at)
  }

  function Checked(l: Layout): Layout {
    if l.count >= NCON || (l.count > 0 && (l.len + 2 - l.first) * 4 >= 4096 - 256) then Layout(l.len + 1 + l.count, 0, 0) else l
  }

  ghost function Conned(l: Layout, o: Word, opt: bool): Layout {
    if opt && Short(o) then l.(len := l.len + ShortLength(o))
    else
      var c := Checked(l);
      Layout(c.len + 1, c.count + 1, if c.count == 0 then c.len else c.first)
  }

  ghost predicate Near(inst: Inst, disp: Word) {
    match inst
    case Lea => Neg(disp) < 256 || exists ro, imm :: 0 <= ro < 16 && Rotated(disp, ro, imm)
    case _ => disp < 4096 || Neg(disp) < 4096
  }

  /** The layout after an operation: it does not depend on the pass. */
  ghost function LayoutStep(l: Layout, op: Op): Layout {
    match op
    case Emit(_) => l.(len := l.len + 1)
    case Check => Checked(l)
    case Con(_, o, _, opt) => Conned(l, o, opt)
    case Memory(inst, _, disp, _, _) =>
      if Near(inst, disp) then l.(len := l.len + 1)
      else
        var c := Conned(l, disp, true);
        c.(len := c.len + 1)
  }

  ghost function LayoutRun(ops: seq<Op>): Layout {
    if ops == [] then Layout(0, 0, 0) else LayoutStep(LayoutRun(ops[..|ops| - 1]), ops[|ops| - 1])
  }

  /** The operations of the two passes differ in the words emitted, which may
      name places, and in the constants that are always loaded. */
  predicate SameShape(x: Op, y: Op) {
    x == y || (x.Emit? && y.Emit?) || (x.Con? && y.Con? && !x.opt && !y.opt)
  }

  /** No phase error: what the first pass notes of the places is right in the
      second. */
  lemma {:induction false} SamePhases(x: seq<Op>, y: seq<Op>)
    requires |x| == |y| && forall k :: 0 <= k < |x| ==> SameShape(x[k], y[k])
    ensures LayoutRun(x) == LayoutRun(y)
  {
    if x != [] {
      SamePhases(x[..|x| - 1], y[..|y| - 1]);
      hide Checked, Short, ShortLength;
    }
  }

  // ------------------------------------------------------------------
  // Memory operands

  /** The single instruction for a near operand. */
  ghost predicate NearInstr(x: Instr, inst: Inst, cc: int, disp: Word, rm: int, r: int) {
    && x.Fits()
    && match inst
       case Lea =>
         || (exists ro, imm :: 0 <= ro < 16 && Rotated(disp, ro, imm) && x == Dpi(cc, ADD, false, rm, r, ro, imm))
         || (Neg(disp) < 256 && x == Dpi(cc, SUB, false, rm, r, 0, Neg(disp)))
       case _ =>
         || (disp < 4096 && x == Mem(cc, true, inst == Ldw, rm, r, disp))
         || (Neg(disp) < 4096 && x == Mem(cc, false, inst == Ldw, rm, r, Neg(disp)))
  }

  /** The last instruction for a far one. */
  function FarInstr(inst: Inst, cc: int, rm: int, r: int): Instr {
    match inst
    case Lea => Dp(cc, ADD, false, rm, r, 0, RCON)
    case _ => MemReg(cc, inst == Ldw, rm, r, RCON)
  }

  ghost predicate MemSite(code: seq<Word>, kind: seq<Kind>, loads: seq<Load>, i: nat, j: nat, inst: Inst, cc: int, disp: Word,
                          rm: int, r: int)
    requires 0 <= cc < 16 && 0 <= rm < 15 && 0 <= r < 15
  {
    && |kind| == |code| && i < j <= |code| && kind[j - 1] == Plain
    && (|| (j == i + 1 && exists x :: NearInstr(x, inst, cc, disp, rm, r) && code[i] == Encode(x))
        || (i < j - 1 && ConSite(code, kind, loads, i, j - 1, cc, RCON, disp)
            && code[j - 1] == Encode(FarInstr(inst, cc, rm, r))))
  }

  lemma ConGrows(code: seq<Word>, kind: seq<Kind>, loads: seq<Load>, code': seq<Word>, kind': seq<Kind>, loads': seq<Load>,
                 i: nat, j: nat, cc: int, r: int, o: Word)
    requires 0 <= cc < 16 && 0 <= r < 15 && ConSite(code, kind, loads, i, j, cc, r, o)
    requires |kind'| == |code'| && Grown(code, kind, code', kind') && loads <= loads'
    ensures ConSite(code', kind', loads', i, j, cc, r, o)
  {
    hide Encode, Rotated;
    if SkipSite(code, kind, i, j - 1) && exists k :: 0 <= k < |loads| && loads[k] == Load(cc, r, o, j - 1) {
      var k :| 0 <= k < |loads| && loads[k] == Load(cc, r, o, j - 1);
      assert loads'[k] == Load(cc, r, o, j - 1);
    } else {
      InPlaceGrows(code, kind, code', kind', i, j, cc, r, o);
    }
  }

  lemma ConNonempty(code: seq<Word>, kind: seq<Kind>, loads: seq<Load>, i: nat, j: nat, cc: int, r: int, o: Word)
    requires 0 <= cc < 16 && 0 <= r < 15 && ConSite(code, kind, loads, i, j, cc, r, o)
    ensures i < j
  {
  }

  lemma InPlaceGrows(code: seq<Word>, kind: seq<Kind>, code': seq<Word>, kind': seq<Kind>, i: nat, j: nat, cc: int, r: int,
                     o: Word)
    requires 0 <= cc < 16 && 0 <= r < 15 && InPlace(code, i, j, cc, r, o)
    requires |code| == |kind| && |kind'| == |code'| && Grown(code, kind, code', kind') && j <= |code|
    requires forall k :: i <= k < j ==> kind[k] == Plain
    ensures InPlace(code', i, j, cc, r, o) && forall k :: i <= k < j ==> kind'[k] == Plain
  {
    hide Encode, Rotated;
    assert code'[i] == code[i];
    if j == i + 2 { assert code'[i + 1] == code[i + 1]; }
  }

  /** `memc` for words and addresses. */
  method Memc(e: Emitter, inst: Inst, cc: int, disp: Word, rm: int, r: int)
    requires e.Valid() && Memory(inst, cc, disp, rm, r).Legal() && (e.pool == [] || e.since <= 67)
    modifies e`code, e`pool, e`kind, e`loads, e`lits, e`since
    ensures e.Valid() && e.since <= old(e.since) + 3
    ensures Grown(old(e.code), old(e.kind), e.code, e.kind) && old(e.loads) <= e.loads
    ensures MemSite(e.code, e.kind, e.loads, old(|e.code|), |e.code|, inst, cc, disp, rm, r)
    ensures LayoutOf(e) == LayoutStep(old(LayoutOf(e)), Memory(inst, cc, disp, rm, r))
  {
    hide Emitter.Valid, Encode;
    assert |e.kind| == |e.code| by { e.KindIs(); }
    ghost var before, kinds := e.code, e.kind;
    ghost var x;
    if inst == Lea {
      if disp < 256 {
        RorNone(disp);
        x := Dpi(cc, ADD, false, rm, r, 0, disp);
        assert Rotated(disp, 0, disp);
        e.Gen(Encode(Dpi(cc, ADD, false, rm, r, 0, disp)));
        NearSite(before, kinds, e.code, e.kind, e.loads, x, inst, cc, disp, rm, r);
        return;
      }
      if Neg(disp) < 256 {
        x := Dpi(cc, SUB, false, rm, r, 0, Neg(disp));
        e.Gen(Encode(Dpi(cc, SUB, false, rm, r, 0, Neg(disp))));
        NearSite(before, kinds, e.code, e.kind, e.loads, x, inst, cc, disp, rm, r);
        return;
      }
      var u := ImmRot(disp);
      if u != 0 {
        ghost var ro, imm :| 0 <= ro < 16 && Rotated(disp, ro, imm) && u == ro * 256 + imm + 0x200_0000;
        x := Dpi(cc, ADD, false, rm, r, ro, imm);
        Joined(Dpi(cc, ADD, false, rm, r, 0, 0), ro, imm);
        e.Gen(Encode(Dpi(cc, ADD, false, rm, r, 0, 0)) + u - 0x200_0000);
        NearSite(before, kinds, e.code, e.kind, e.loads, x, inst, cc, disp, rm, r);
        return;
      }
    } else if disp < 4096 {
      x := Mem(cc, true, inst == Ldw, rm, r, disp);
      e.Gen(Encode(Mem(cc, true, inst == Ldw, rm, r, disp)));
      NearSite(before, kinds, e.code, e.kind, e.loads, x, inst, cc, disp, rm, r);
      return;
    } else if Neg(disp) < 4096 {
      x := Mem(cc, false, inst == Ldw, rm, r, Neg(disp));
      UpBit(cc, inst == Ldw, rm, r, Neg(disp));
      e.Gen(Encode(Mem(cc, true, inst == Ldw, rm, r, Neg(disp))) - 0x80_0000);
      NearSite(before, kinds, e.code, e.kind, e.loads, x, inst, cc, disp, rm, r);
      return;
    }
    MemcFar(e, inst, cc, disp, rm, r);
  }

  /** The end of memc: the displacement in RCON. */
  method MemcFar(e: Emitter, inst: Inst, cc: int, disp: Word, rm: int, r: int)
    requires e.Valid() && Memory(inst, cc, disp, rm, r).Legal() && (e.pool == [] || e.since <= 67)
    requires !Near(inst, disp)
    modifies e`code, e`pool, e`kind, e`loads, e`lits, e`since
    ensures e.Valid() && e.since <= old(e.since) + 3
    ensures Grown(old(e.code), old(e.kind), e.code, e.kind) && old(e.loads) <= e.loads
    ensures MemSite(e.code, e.kind, e.loads, old(|e.code|), |e.code|, inst, cc, disp, rm, r)
    ensures LayoutOf(e) == LayoutStep(old(LayoutOf(e)), Memory(inst, cc, disp, rm, r))
  {
    hide Emitter.Valid, Encode, Grown, ConSite, Near, Short, ShortLength;
    assert |e.kind| == |e.code| by { e.KindIs(); }
    ghost var before, kinds := e.code, e.kind;
    e.Ccon(cc, disp, RCON, true);
    assert |e.kind| == |e.code| by { e.KindIs(); }
    ghost var c, d, ls := e.code, e.kind, e.loads;
    ConNonempty(c, d, ls, |before|, |c|, cc, RCON, disp);
    e.Gen(Encode(FarInstr(inst, cc, rm, r)));
    GrownPrefix(c, d, e.code, e.kind);
    GrownTrans(before, kinds, c, d, e.code, e.kind);
    ConGrows(c, d, ls, e.code, e.kind, e.loads, |before|, |c|, cc, RCON, disp);
  }

  lemma NearSite(before: seq<Word>, kinds: seq<Kind>, code: seq<Word>, kind: seq<Kind>, loads: seq<Load>,
                 x: Instr, inst: Inst, cc: int, disp: Word, rm: int, r: int)
    requires 0 <= cc < 16 && 0 <= rm < 15 && 0 <= r < 15 && |kinds| == |before|
    requires NearInstr(x, inst, cc, disp, rm, r) && code == before + [Encode(x)] && kind == kinds + [Plain]
    ensures MemSite(code, kind, loads, |before|, |code|, inst, cc, disp, rm, r)
    ensures Grown(before, kinds, code, kind)
  {
    hide Encode, NearInstr;
    GrownPrefix(before, kinds, code, kind);
  }

  /** Flipping the bit for the direction. */
  lemma UpBit(cc: int, load: bool, rn: int, rd: int, off: int)
    requires Mem(cc, true, load, rn, rd, off).Fits()
    ensures Encode(Mem(cc, true, load, rn, rd, off)) - 0x80_0000 == Encode(Mem(cc, false, load, rn, rd, off))
  {
  }

  // ------------------------------------------------------------------
  // Running memory operands

  /** Where the operand is. */
  function Target(m: Machine, rm: int, disp: Word): Word
    requires Valid(m) && 0 <= rm < 15
  {
    (m.reg[rm] + disp) % WORD
  }

  /** A word there can be accessed. */
  predicate Aligned(m: Machine, at: int) {
    at % 4 == 0 && at in m.mem
  }

  /** The effect of a memory operand, `scratch` being the registers with or
      without the displacement in RCON. */
  function Accessed(m: Machine, pc: int, inst: Inst, cc: int, disp: Word, rm: int, r: int, scratch: seq<Word>): Machine
    requires Valid(m) && 0 <= rm < 15 && 0 <= r < 15 && |scratch| == 15
    requires inst != Lea ==> Aligned(m, Target(m, rm, disp))
  {
    if !Cond(cc, m) then m.(pc := pc)
    else
      var at := Target(m, rm, disp);
      match inst
      case Lea => m.(pc := pc, reg := scratch[r := at])
      case Ldw => m.(pc := pc, reg := scratch[r := m.mem[at]])
      case Stw => m.(pc := pc, reg := scratch, mem := m.mem[at := m.reg[r]])
  }

  /** The code from i to j computes the address in rm plus disp, modulo the word
      size, and accesses it; it changes no register but r and RCON. */
  ghost predicate Accesses(code: seq<Word>, i: nat, j: nat, inst: Inst, cc: int, disp: Word, rm: int, r: int)
    requires 0 <= rm < 15 && 0 <= r < 15
  {
    forall base: int, m: Machine ::
      Valid(m) && Loaded(m, base, code) && m.pc == Addr(base, i) && (inst != Lea ==> Aligned(m, Target(m, rm, disp))) ==>
        || Reaches(m, Accessed(m, Addr(base, j), inst, cc, disp, rm, r, m.reg))
        || Reaches(m, Accessed(m, Addr(base, j), inst, cc, disp, rm, r, m.reg[RCON := disp]))
  }

  lemma AddNeg(x: Word, d: Word)
    ensures (x - Neg(d)) % WORD == (x + d) % WORD
  {
    if d > 0 { assert x - Neg(d) == x + d - WORD; }
  }

  lemma NearDoes(m: Machine, x: Instr, inst: Inst, cc: int, disp: Word, rm: int, r: int)
    requires Valid(m) && 0 <= cc < 16 && 0 <= rm < 15 && 0 <= r < 15 && NearInstr(x, inst, cc, disp, rm, r)
    requires inst != Lea ==> Aligned(m, Target(m, rm, disp))
    ensures Execute(m, x) == Some(Accessed(m, m.pc + 4, inst, cc, disp, rm, r, m.reg))
  {
    AddNeg(m.reg[rm], disp);
    if inst == Lea {
      NearLea(m, x, cc, disp, rm, r);
    } else {
      hide Cond, Rotated;
    }
  }

  lemma NearLea(m: Machine, x: Instr, cc: int, disp: Word, rm: int, r: int)
    requires Valid(m) && 0 <= cc < 16 && 0 <= rm < 15 && 0 <= r < 15 && NearInstr(x, Lea, cc, disp, rm, r)
    ensures Execute(m, x) == Some(Accessed(m, m.pc + 4, Lea, cc, disp, rm, r, m.reg))
  {
    AddNeg(m.reg[rm], disp);
    RorNone(Neg(disp));
    hide Cond, Ror, Execute;
    ImmDoes(m, cc, x.op, rm, r, x.ro, x.imm, Target(m, rm, disp));
  }

  lemma FarDoes(m: Machine, inst: Inst, cc: int, disp: Word, rm: int, r: int)
    requires Valid(m) && Memory(inst, cc, disp, rm, r).Legal()
    requires Cond(cc, m) ==> m.reg[RCON] == disp
    requires inst != Lea ==> Aligned(m, Target(m, rm, disp))
    ensures Execute(m, FarInstr(inst, cc, rm, r)) == Some(Accessed(m, m.pc + 4, inst, cc, disp, rm, r, m.reg))
  {
    assert Pow2(0) == 1;
    hide Cond;
  }

  lemma MemAccesses(code: seq<Word>, kind: seq<Kind>, loads: seq<Load>, lits: seq<int>, i: nat, j: nat,
                    inst: Inst, cc: int, disp: Word, rm: int, r: int)
    requires Memory(inst, cc, disp, rm, r).Legal() && MemSite(code, kind, loads, i, j, inst, cc, disp, rm, r)
    requires AllResolved(code, loads, lits) && |lits| == |loads|
    ensures Accesses(code, i, j, inst, cc, disp, rm, r)
  {
    hide Encode, Execute, Loaded, Reaches, Cond, ConSite, AllResolved, Accessed, Leaves, Rotated;
    if j == i + 1 {
      forall base: int, m: Machine
        | Valid(m) && Loaded(m, base, code) && m.pc == Addr(base, i) && (inst != Lea ==> Aligned(m, Target(m, rm, disp)))
        ensures Reaches(m, Accessed(m, Addr(base, j), inst, cc, disp, rm, r, m.reg))
      {
        var x :| NearInstr(x, inst, cc, disp, rm, r) && code[i] == Encode(x);
        AtCode(m, base, code, i, x);
        NearDoes(m, x, inst, cc, disp, rm, r);
        ReachesStep(m, x, Accessed(m, Addr(base, j), inst, cc, disp, rm, r, m.reg));
      }
    } else {
      ConLeaves(code, kind, loads, lits, i, j - 1, cc, RCON, disp);
      forall base: int, m: Machine
        | Valid(m) && Loaded(m, base, code) && m.pc == Addr(base, i) && (inst != Lea ==> Aligned(m, Target(m, rm, disp)))
        ensures Reaches(m, Accessed(m, Addr(base, j), inst, cc, disp, rm, r, m.reg[RCON := disp]))
      {
        FarReaches(code, i, j, inst, cc, disp, rm, r, base, m);
      }
    }
  }

  lemma FarReaches(code: seq<Word>, i: nat, j: nat, inst: Inst, cc: int, disp: Word, rm: int, r: int, base: int, m: Machine)
    requires Memory(inst, cc, disp, rm, r).Legal() && i < j <= |code| && Leaves(code, i, j - 1, cc, RCON, disp)
    requires code[j - 1] == Encode(FarInstr(inst, cc, rm, r))
    requires Valid(m) && Loaded(m, base, code) && m.pc == Addr(base, i) && (inst != Lea ==> Aligned(m, Target(m, rm, disp)))
    ensures Reaches(m, Accessed(m, Addr(base, j), inst, cc, disp, rm, r, m.reg[RCON := disp]))
  {
    var a := m.(pc := Addr(base, j - 1), reg := if Cond(cc, m) then m.reg[RCON := disp] else m.reg);
    assert Reaches(m, a);
    assert Loaded(a, base, code);
    SameCond(cc, m, a);
    FarSame(m, a, Addr(base, j), inst, cc, disp, rm, r);
    hide Encode, Execute, Loaded, Reaches, Cond, Leaves, Accessed, Target, Aligned, FarInstr;
    FarStep(code, j, inst, cc, disp, rm, r, base, a);
    ReachesTrans(m, a, Accessed(m, Addr(base, j), inst, cc, disp, rm, r, m.reg[RCON := disp]));
  }

  lemma FarSame(m: Machine, a: Machine, pc: int, inst: Inst, cc: int, disp: Word, rm: int, r: int)
    requires Valid(m) && Memory(inst, cc, disp, rm, r).Legal() && (inst != Lea ==> Aligned(m, Target(m, rm, disp)))
    requires a.reg == if Cond(cc, m) then m.reg[RCON := disp] else m.reg
    requires a == m.(pc := a.pc, reg := a.reg)
    ensures Valid(a) && Target(a, rm, disp) == Target(m, rm, disp) && (inst != Lea ==> Aligned(a, Target(a, rm, disp)))
    ensures Accessed(a, pc, inst, cc, disp, rm, r, a.reg) == Accessed(m, pc, inst, cc, disp, rm, r, m.reg[RCON := disp])
  {
    SameCond(cc, m, a);
    hide Cond;
  }

  lemma FarStep(code: seq<Word>, j: nat, inst: Inst, cc: int, disp: Word, rm: int, r: int, base: int, a: Machine)
    requires Memory(inst, cc, disp, rm, r).Legal() && 0 < j <= |code| && code[j - 1] == Encode(FarInstr(inst, cc, rm, r))
    requires Valid(a) && Loaded(a, base, code) && a.pc == Addr(base, j - 1) && (inst != Lea ==> Aligned(a, Target(a, rm, disp)))
    requires Cond(cc, a) ==> a.reg[RCON] == disp
    ensures Reaches(a, Accessed(a, Addr(base, j), inst, cc, disp, rm, r, a.reg))
  {
    var x := FarInstr(inst, cc, rm, r);
    hide Encode, Execute, Loaded, Reaches, Cond, Accessed;
    AtCode(a, base, code, j - 1, x);
    FarDoes(a, inst, cc, disp, rm, r);
    ReachesStep(a, x, Accessed(a, Addr(base, j), inst, cc, disp, rm, r, a.reg));
  }

  lemma ConLeaves(code: seq<Word>, kind: seq<Kind>, loads: seq<Load>, lits: seq<int>, i: nat, j: nat, cc: int, r: int, o: Word)
    requires 0 <= cc < 16 && 0 <= r < 15 && ConSite(code, kind, loads, i, j, cc, r, o)
    requires AllResolved(code, loads, lits) && |lits| == |loads|
    ensures Leaves(code, i, j, cc, r, o)
  {
    hide Encode, Rotated, Leaves, Resolved, Skips;
    if InPlace(code, i, j, cc, r, o) {
      InPlaceLeaves(code, i, j, cc, r, o);
    } else {
      var k :| 0 <= k < |loads| && loads[k] == Load(cc, r, o, j - 1);
      LoadLeaves(code, i, loads[k], lits[k]);
    }
  }

  // ------------------------------------------------------------------
  // Sequences of operations

  /** The code from i to j has been emitted for the operation. */
  ghost predicate Site(code: seq<Word>, kind: seq<Kind>, loads: seq<Load>, i: nat, j: nat, op: Op)
    requires op.Legal()
  {
    && |kind| == |code|
    && match op
       case Emit(w) => j == i + 1 <= |code| && kind[i] == Plain && code[i] == w
       case Check => SkipSite(code, kind, i, j)
       case Con(cc, o, r, opt) => ConSite(code, kind, loads, i, j, cc, r, o)
       case Memory(inst, cc, disp, rm, r) => MemSite(code, kind, loads, i, j, inst, cc, disp, rm, r)
  }

  lemma SiteGrows(code: seq<Word>, kind: seq<Kind>, loads: seq<Load>, code': seq<Word>, kind': seq<Kind>, loads': seq<Load>,
                  i: nat, j: nat, op: Op)
    requires op.Legal() && Site(code, kind, loads, i, j, op)
    requires |kind'| == |code'| && Grown(code, kind, code', kind') && loads <= loads'
    ensures Site(code', kind', loads', i, j, op)
  {
    hide Encode, ConSite, NearInstr;
    match op
    case Emit(_) =>
    case Check =>
    case Con(cc, o, r, opt) => ConGrows(code, kind, loads, code', kind', loads', i, j, cc, r, o);
    case Memory(inst, cc, disp, rm, r) =>
      assert code'[j - 1] == code[j - 1];
      if i < j - 1 && ConSite(code, kind, loads, i, j - 1, cc, RCON, disp) {
        ConGrows(code, kind, loads, code', kind', loads', i, j - 1, cc, RCON, disp);
      }
  }

  /** Running the code from i to j is the operation. */
  ghost predicate Performs(code: seq<Word>, i: nat, j: nat, op: Op)
    requires op.Legal()
  {
    match op
    case Emit(w) => j == i + 1 <= |code| && code[i] == w
    case Check => Falls(code, i, j)
    case Con(cc, o, r, opt) => Leaves(code, i, j, cc, r, o)
    case Memory(inst, cc, disp, rm, r) => Accesses(code, i, j, inst, cc, disp, rm, r)
  }

  lemma SitePerforms(code: seq<Word>, kind: seq<Kind>, loads: seq<Load>, lits: seq<int>, i: nat, j: nat, op: Op)
    requires op.Legal() && Site(code, kind, loads, i, j, op)
    requires AllResolved(code, loads, lits) && |lits| == |loads|
    ensures Performs(code, i, j, op)
  {
    hide Encode, ConSite, MemSite, Accesses, Leaves, Falls, AllResolved, Skips;
    match op
    case Emit(_) =>
    case Check => SkipsFalls(code, i, j);
    case Con(cc, o, r, opt) => ConLeaves(code, kind, loads, lits, i, j, cc, r, o);
    case Memory(inst, cc, disp, rm, r) => MemAccesses(code, kind, loads, lits, i, j, inst, cc, disp, rm, r);
  }

  /** How many words there can be since the last look at the table. */
  function Pace(ops: seq<Op>): nat {
    if ops == [] then 0
    else
      var n := Pace(ops[..|ops| - 1]);
      match ops[|ops| - 1]
      case Emit(_) => n + 1
      case Check => 0
      case Con(_, _, _, opt) => if opt then n + 2 else 1
      case Memory(_, _, _, _, _) => n + 3
  }

  /** At every point flushchk was called not more than 67 words ago. */
  ghost predicate Paced(ops: seq<Op>) {
    forall k :: 0 <= k <= |ops| ==> Pace(ops[..k]) <= 67
  }

  ghost predicate Legal(ops: seq<Op>) {
    forall k :: 0 <= k < |ops| ==> ops[k].Legal()
  }

  /** One operation. */
  method Apply(e: Emitter, op: Op)
    requires e.Valid() && op.Legal() && (e.pool == [] || e.since <= 67)
    modifies e`code, e`pool, e`kind, e`loads, e`lits, e`since
    ensures e.Valid() && |e.kind| == |e.code|
    ensures Grown(old(e.code), old(e.kind), e.code, e.kind) && old(e.loads) <= e.loads
    ensures Site(e.code, e.kind, e.loads, old(|e.code|), |e.code|, op)
    ensures LayoutOf(e) == LayoutStep(old(LayoutOf(e)), op)
    ensures e.since <= match op
                       case Emit(_) => old(e.since) + 1
                       case Check => 0
                       case Con(_, _, _, opt) => if opt then old(e.since) + 2 else 1
                       case Memory(_, _, _, _, _) => old(e.since) + 3
    ensures op.Emit? ==> e.pool == old(e.pool) && |e.code| == old(|e.code|) + 1
  {
    e.KindIs();
    hide Emitter.Valid, Encode, ConSite, MemSite, SkipSite, Grown;
    match op
    case Emit(w) =>
      ghost var c, k := e.code, e.kind;
      e.Gen(w);
      GrownPrefix(c, k, e.code, e.kind);
    case Check =>
      e.FlushChk();
      assert |e.kind| == |e.code| by { e.KindIs(); }
    case Con(cc, o, r, opt) =>
      e.Ccon(cc, o, r, opt);
      assert |e.kind| == |e.code| by { e.KindIs(); }
    case Memory(inst, cc, disp, rm, r) =>
      Memc(e, inst, cc, disp, rm, r);
      assert |e.kind| == |e.code| by { e.KindIs(); }
  }

  /** The first k operations have been emitted. */
  ghost predicate Sites(code: seq<Word>, kind: seq<Kind>, loads: seq<Load>, pos: seq<nat>, ops: seq<Op>, k: nat)
    requires Legal(ops) && k <= |ops|
  {
    |pos| > k && forall i :: 0 <= i < k ==> Site(code, kind, loads, pos[i], pos[i + 1], ops[i])
  }

  lemma SitesGrow(code: seq<Word>, kind: seq<Kind>, loads: seq<Load>, code': seq<Word>, kind': seq<Kind>, loads': seq<Load>,
                  pos: seq<nat>, ops: seq<Op>, k: nat)
    requires Legal(ops) && k <= |ops| && Sites(code, kind, loads, pos, ops, k)
    requires |kind| == |code| && |kind'| == |code'| && Grown(code, kind, code', kind') && loads <= loads'
    ensures Sites(code', kind', loads', pos, ops, k)
  {
    hide Site, Grown;
    forall i | 0 <= i < k ensures Site(code', kind', loads', pos[i], pos[i + 1], ops[i]) {
      SiteGrows(code, kind, loads, code', kind', loads', pos[i], pos[i + 1], ops[i]);
    }
  }

  /** Where they are is what the layouts say. */
  ghost predicate Placed(pos: seq<nat>, ops: seq<Op>, k: nat)
    requires k <= |ops|
  {
    |pos| == k + 1 && forall i :: 0 <= i <= k ==> pos[i] == LayoutRun(ops[..i]).len
  }

  lemma PlacedMore(pos: seq<nat>, ops: seq<Op>, k: nat, p: nat)
    requires k < |ops| && Placed(pos, ops, k) && p == LayoutRun(ops[..k + 1]).len
    ensures Placed(pos + [p], ops, k + 1)
  {
    hide LayoutRun;
  }

  lemma LayoutNext(ops: seq<Op>, k: nat)
    requires k < |ops|
    ensures LayoutRun(ops[..k + 1]) == LayoutStep(LayoutRun(ops[..k]), ops[k])
    ensures Pace(ops[..k + 1]) == Pace(ops[..k]) + Pace([ops[k]]) || Pace(ops[..k + 1]) == Pace([ops[k]])
    ensures match ops[k]
            case Emit(_) => Pace(ops[..k + 1]) == Pace(ops[..k]) + 1
            case Check => true
            case Con(_, _, _, opt) => Pace(ops[..k + 1]) == if opt then Pace(ops[..k]) + 2 else 1
            case Memory(_, _, _, _, _) => Pace(ops[..k + 1]) == Pace(ops[..k]) + 3
  {
    assert ops[..k + 1][..k] == ops[..k];
    hide LayoutStep;
  }

  /** The state of the emitter after k operations. */
  ghost predicate After(e: Emitter, pos: seq<nat>, ops: seq<Op>, k: nat)
    requires Legal(ops) && k <= |ops|
    reads e
  {
    && e.Valid() && |e.kind| == |e.code| && Placed(pos, ops, k) && Sites(e.code, e.kind, e.loads, pos, ops, k)
    && pos[k] == |e.code| && LayoutOf(e) == LayoutRun(ops[..k]) && e.since <= Pace(ops[..k])
  }

  method Next(e: Emitter, pos: seq<nat>, ops: seq<Op>, k: nat) returns (pos': seq<nat>)
    requires Legal(ops) && Paced(ops) && k < |ops| && After(e, pos, ops, k)
    modifies e`code, e`pool, e`kind, e`loads, e`lits, e`since
    ensures After(e, pos', ops, k + 1)
    ensures ops[k].Emit? ==> NoneLast(e)
  {
    assert |pos| == k + 1;
    hide Emitter.Valid, Site, Grown, LayoutStep, LayoutRun, Pace, Placed, Sites;
    ghost var code, kind, loads := e.code, e.kind, e.loads;
    LayoutNext(ops, k);
    assert Pace(ops[..k]) <= 67;
    e.Few();
    assert e.since <= 67;
    Apply(e, ops[k]);
    SitesGrow(code, kind, loads, e.code, e.kind, e.loads, pos, ops, k);
    PlacedMore(pos, ops, k, |e.code|);
    pos' := pos + [|e.code|];
    SitesMore(e.code, e.kind, e.loads, pos, ops, k, |e.code|);
  }

  lemma SitesMore(code: seq<Word>, kind: seq<Kind>, loads: seq<Load>, pos: seq<nat>, ops: seq<Op>, k: nat, p: nat)
    requires Legal(ops) && k < |ops| && |pos| == k + 1 && Sites(code, kind, loads, pos, ops, k)
    requires Site(code, kind, loads, pos[k], p, ops[k])
    ensures Sites(code, kind, loads, pos + [p], ops, k + 1)
  {
    hide Site;
  }

  /** Emit all the operations, and the literals left: the finished code of the
      second pass performs the operations in order, each from where the one
      before ended, and both passes put them in the same places. */
  method Compile(ops: seq<Op>, second: bool) returns (e: Emitter, pos: seq<nat>)
    requires Legal(ops) && Paced(ops) && ops != [] && ops[|ops| - 1].Emit?
    ensures fresh(e) && Placed(pos, ops, |ops|) && |e.code| == pos[|ops|] + LayoutRun(ops).count
    ensures second ==> forall k :: 0 <= k < |ops| ==> Performs(e.code, pos[k], pos[k + 1], ops[k])
  {
    e := new Emitter(second);
    pos := [0];
    assert ops[..0] == [] && ops[..|ops|] == ops;
    for k := 0 to |ops|
      invariant fresh(e) && After(e, pos, ops, k) && e.patching == second
      invariant k > 0 && ops[k - 1].Emit? ==> NoneLast(e)
    {
      hide *;
      pos := Next(e, pos, ops, k);
    }
    Finish(e, pos, ops);
  }

  method Finish(e: Emitter, pos: seq<nat>, ops: seq<Op>)
    requires Legal(ops) && Paced(ops) && After(e, pos, ops, |ops|) && NoneLast(e)
    modifies e`code, e`pool, e`kind, e`lits
    ensures Placed(pos, ops, |ops|) && |e.code| == pos[|ops|] + LayoutRun(ops).count
    ensures e.patching ==> forall k :: 0 <= k < |ops| ==> Performs(e.code, pos[k], pos[k + 1], ops[k])
  {
    hide Emitter.Valid, Site, Grown, LayoutRun, Pace, Performs;
    ghost var code, kind := e.code, e.kind;
    assert ops[..|ops|] == ops;
    e.FlushCon(false);
    e.KindIs();
    SitesGrow(code, kind, e.loads, e.code, e.kind, e.loads, pos, ops, |ops|);
    if e.patching {
      e.Finished();
      forall i | 0 <= i < |ops| ensures Performs(e.code, pos[i], pos[i + 1], ops[i]) {
        SitePerforms(e.code, e.kind, e.loads, e.lits, pos[i], pos[i + 1], ops[i]);
      }
    }
  }

  /** The last word is not a load that waits. */
  predicate NoneLast(e: Emitter)
    reads e`code, e`pool
  {
    forall k :: 0 <= k < |e.pool| ==> e.pool[k].at + 2 <= |e.code|
  }
}
