/**
 The six branches on 64-bit comparisons (libinterp/comp-mips.c:623-667, 1206-1223),
 with the instruction behind each branch executed either way.
 */
module MipsBranch {
  import opened Basics
  import opened Words
  import opened MipsMachine
  import opened MipsLong
  import opened MipsCode

  datatype Mode = AndAnd | OrOr | EqAnd(rev1: bool, rev2: bool)

  /** The comparisons, and how comp calls cbral for them. */
  datatype Rel = Eq | Ne | Le | Gt | Lt | Ge

  function OnEqual(rel: Rel): bool { rel == Eq || rel == Le || rel == Ge }

  function ModeOf(rel: Rel): Mode {
    match rel
    case Eq => AndAnd
    case Ne => OrOr
    case Le => EqAnd(true, false)
    case Gt => EqAnd(false, false)
    case Lt => EqAnd(true, true)
    case Ge => EqAnd(false, true)
  }

  predicate Related(rel: Rel, a: int, b: int) {
    match rel
    case Eq => a == b
    case Ne => a != b
    case Le => a <= b
    case Gt => a > b
    case Lt => a < b
    case Ge => a >= b
  }

  function Branch(onEqual: bool, r1: int, r2: int, off: int): Instr {
    if onEqual then Beq(r1, r2, off) else Bne(r1, r2, off)
  }

  function HeadCode(src: Adr, second: Adr, bhi: int): seq<Instr> {
    LeaCode(src, RI) + LeaCode(second, RJ) + [Lw(bhi, RI, RO1)] + [Lw(bhi, RJ, RO2)] + [Lw(4 - bhi, RI, RI)]
  }

  function Ordered(op: Op3, rev: bool, x: int, y: int): Instr {
    if rev then Rrr(op, y, x, RO3) else Rrr(op, x, y, RO3)
  }

  /** The instructions from place n on; t is the target. */
  function TailCode(onEqual: bool, mode: Mode, bhi: int, n: int, t: int): seq<Instr> {
    match mode
    case AndAnd => [Bne(RO2, RO1, 4), Lw(4 - bhi, RJ, RJ), Delay, Branch(onEqual, RJ, RI, t - n - 4), Delay]
    case OrOr => [Bne(RO2, RO1, t - n - 1), Lw(4 - bhi, RJ, RJ), Delay, Branch(onEqual, RJ, RI, t - n - 4), Delay]
    case EqAnd(rev1, rev2) =>
      [Ordered(Slt, rev1, RO1, RO2), Bne(RO3, 0, t - n - 2), Lw(4 - bhi, RJ, RJ), Bne(RO2, RO1, 3),
       Ordered(Sltu, rev2, RI, RJ), Branch(onEqual, RO3, 0, t - n - 6), Delay]
  }

  /** `cbral`, with the place `t` to branch to counted from its start. */
  method Cbral(onEqual: bool, mode: Mode, src: Adr, second: Adr, bhi: int, t: int) returns (code: seq<Instr>)
    ensures var h := HeadCode(src, second, bhi); code == h + TailCode(onEqual, mode, bhi, |h|, t)
  {
    hide LeaCode, Branch;
    code := Lea(src, RI);
    var more := Lea(second, RJ);
    code := code + more;
    code := code + [Lw(bhi, RI, RO1)] + [Lw(bhi, RJ, RO2)] + [Lw(4 - bhi, RI, RI)];
    ghost var h := code;
    match mode
    case AndAnd =>
      var cp := |code|;
      code := code + [Bne(RO2, RO1, 0)];
      code := code + [Lw(4 - bhi, RJ, RJ)];
      code := code + [Delay];
      code := code + [Branch(onEqual, RJ, RI, t - |code| - 1)];
      code := code + [Delay];
      code := code[cp := Bne(RO2, RO1, |code| - cp - 1)];
      assert code == h + TailCode(onEqual, mode, bhi, |h|, t);
    case OrOr =>
      code := code + [Bne(RO2, RO1, t - |code| - 1)];
      code := code + [Lw(4 - bhi, RJ, RJ)];
      code := code + [Delay];
      code := code + [Branch(onEqual, RJ, RI, t - |code| - 1)];
      code := code + [Delay];
      assert code == h + TailCode(onEqual, mode, bhi, |h|, t);
    case EqAnd(rev1, rev2) =>
      code := code + [if rev1 then Rrr(Slt, RO2, RO1, RO3) else Rrr(Slt, RO1, RO2, RO3)];
      code := code + [Bne(RO3, 0, t - |code| - 1)];
      code := code + [Lw(4 - bhi, RJ, RJ)];
      var cp := |code|;
      code := code + [Bne(RO2, RO1, 0)];
      code := code + [if rev2 then Rrr(Sltu, RJ, RI, RO3) else Rrr(Sltu, RI, RJ, RO3)];
      code := code + [Branch(onEqual, RO3, 0, t - |code| - 1)];
      code := code + [Delay];
      code := code[cp := Bne(RO2, RO1, |code| - cp - 1)];
      assert code == h + TailCode(onEqual, mode, bhi, |h|, t);
  }

  // ------------------------------------------------------------------
  // Running it

  lemma ReachesTrans(code: seq<Instr>, u: Cpu, v: Cpu, w: Cpu)
    requires Valid(u.m) && Valid(v.m) && Reaches(code, u, v) && Reaches(code, v, w)
    ensures Reaches(code, u, w)
  {
    var j: nat :| Steps(code, u, j) == Some(v);
    var k: nat :| Steps(code, v, k) == Some(w);
    hide Step;
    StepsJoin(code, u, j, k);
  }

  lemma {:induction false} StepsJoin(code: seq<Instr>, u: Cpu, j: nat, k: nat)
    requires Valid(u.m) && Steps(code, u, j).Some?
    ensures Steps(code, u, j + k) == Steps(code, Steps(code, u, j).value, k)
    decreases j
  {
    hide Step;
    if j > 0 { StepsJoin(code, Step(code, u).value, j - 1, k); }
  }

  /** Straight code, run where it stands at the start of more code. */
  lemma {:induction false} RunReaches(m: Machine, c: seq<Instr>, code: seq<Instr>, m': Machine)
    requires Valid(m) && Valid(m') && c <= code && Run(m, c) == Some(m')
    ensures Reaches(code, Cpu(m, 0, 1), Cpu(m', |c|, |c| + 1))
    decreases |c|
  {
    if c == [] {
      ReachesSelf(code, Cpu(m, 0, 1));
    } else {
      var k := |c| - 1;
      var m1 := Run(m, c[..k]).value;
      RunReaches(m, c[..k], code, m1);
      Plain(code, Cpu(m1, k, k + 1), c[k], m');
      ReachesTrans(code, Cpu(m, 0, 1), Cpu(m1, k, k + 1), Cpu(m', k + 1, k + 2));
    }
  }

  /** An instruction other than a branch. */
  lemma Plain(code: seq<Instr>, u: Cpu, i: Instr, m': Machine)
    requires Valid(u.m) && Valid(m') && 0 <= u.pc < |code| && code[u.pc] == i && Exec(u.m, i) == Some(m')
    ensures Reaches(code, u, Cpu(m', u.npc, u.npc + 1))
  {
    assert !i.Beq? && !i.Bne?;
    assert Step(code, u) == Some(Cpu(m', u.npc, u.npc + 1));
    hide Exec, Step;
    ReachesSelf(code, Cpu(m', u.npc, u.npc + 1));
    ReachesStep(code, u, Cpu(m', u.npc, u.npc + 1), Cpu(m', u.npc, u.npc + 1));
  }

  /** A branch. */
  lemma Branches(code: seq<Instr>, u: Cpu, onEqual: bool, r1: int, r2: int, off: int) returns (v: Cpu)
    requires Valid(u.m) && 0 <= u.pc < |code| && code[u.pc] == Branch(onEqual, r1, r2, off) && 0 <= r1 < 32 && 0 <= r2 < 32
    ensures Reaches(code, u, v)
    ensures v == Cpu(u.m, u.npc, if (u.m.reg[r1] == u.m.reg[r2]) == onEqual then u.pc + 1 + off else u.npc + 1)
  {
    v := Cpu(u.m, u.npc, if (u.m.reg[r1] == u.m.reg[r2]) == onEqual then u.pc + 1 + off else u.npc + 1);
    assert Step(code, u) == Some(v);
    hide Exec, Step;
    ReachesSelf(code, v);
    ReachesStep(code, u, v, v);
  }

  /** Where the code has come to from m, with only working registers changed. */
  ghost predicate Comes(code: seq<Instr>, m: Machine, u: Cpu) {
    Valid(m) && Valid(u.m) && Reaches(code, Cpu(m, 0, 1), u) && Frame(m, u.m) && u.m.mem == m.mem
  }

  lemma ComesPlain(code: seq<Instr>, m: Machine, u: Cpu, i: Instr, r: int, x: Word) returns (v: Cpu)
    requires Comes(code, m, u) && 0 <= u.pc < |code| && code[u.pc] == i && Working(r)
    requires Valid(u.m) && Exec(u.m, i) == Some(u.m.(reg := u.m.reg[r := x]))
    ensures v == Cpu(u.m.(reg := u.m.reg[r := x]), u.npc, u.npc + 1) && Valid(v.m) && Comes(code, m, v)
  {
    var m' := u.m.(reg := u.m.reg[r := x]);
    v := Cpu(m', u.npc, u.npc + 1);
    hide Exec, Reaches;
    Plain(code, u, i, m');
    ReachesTrans(code, Cpu(m, 0, 1), u, v);
  }

  lemma ComesDelay(code: seq<Instr>, m: Machine, u: Cpu) returns (v: Cpu)
    requires Comes(code, m, u) && 0 <= u.pc < |code| && code[u.pc] == Delay
    ensures v == Cpu(u.m, u.npc, u.npc + 1) && Comes(code, m, v)
  {
    v := Cpu(u.m, u.npc, u.npc + 1);
    DelayDoes(u.m);
    hide Exec, Reaches, Frame;
    Plain(code, u, Delay, u.m);
    ReachesTrans(code, Cpu(m, 0, 1), u, v);
  }

  lemma ComesBranch(code: seq<Instr>, m: Machine, u: Cpu, onEqual: bool, r1: int, r2: int, off: int) returns (v: Cpu)
    requires Comes(code, m, u) && 0 <= u.pc < |code| && code[u.pc] == Branch(onEqual, r1, r2, off) && 0 <= r1 < 32 && 0 <= r2 < 32
    requires Valid(u.m)
    ensures v == Cpu(u.m, u.npc, if (u.m.reg[r1] == u.m.reg[r2]) == onEqual then u.pc + 1 + off else u.npc + 1)
    ensures Comes(code, m, v)
  {
    hide Exec, Reaches, Frame;
    v := Branches(code, u, onEqual, r1, r2, off);
    ReachesTrans(code, Cpu(m, 0, 1), u, v);
  }

  /** The low half of the second operand, in the slot behind a branch. */
  lemma ComesLoad(code: seq<Instr>, m: Machine, u: Cpu, off: int, b: int) returns (v: Cpu)
    requires Comes(code, m, u) && 0 <= u.pc < |code| && code[u.pc] == Lw(off, RJ, RJ) && Valid(u.m) && u.m.reg[RJ] == b
    requires Aligned(m, At(b, off))
    ensures v == Cpu(u.m.(reg := u.m.reg[RJ := m.mem[At(b, off)]]), u.npc, u.npc + 1) && Valid(v.m) && Comes(code, m, v)
  {
    LwDoes(u.m, off, RJ, RJ);
    assert u.m.mem == m.mem;
    hide Exec, Comes;
    v := ComesPlain(code, m, u, Lw(off, RJ, RJ), RJ, m.mem[At(b, off)]);
  }

  /** The operands: their high halves in Ro1 and Ro2, the low half of the first in
      Ri, the address of the second in Rj. */
  ghost predicate Loaded(m: Machine, m1: Machine, src: Adr, second: Adr, bhi: int)
    requires Valid(m) && Usable(m, src, bhi) && Usable(m, second, bhi)
  {
    && Valid(m1)
    && m1.reg[RO1] == Hi(m, AddrOf(m, src), bhi) && m1.reg[RI] == Lo(m, AddrOf(m, src), bhi)
    && m1.reg[RO2] == Hi(m, AddrOf(m, second), bhi) && m1.reg[RJ] == AddrOf(m, second)
  }

  lemma HeadGot(m: Machine, src: Adr, second: Adr, bhi: int) returns (m': Machine)
    requires Valid(m) && Usable(m, src, bhi) && Usable(m, second, bhi)
    ensures Got(m, HeadCode(src, second, bhi), m') && Loaded(m, m', src, second, bhi)
  {
    GotNone(m);
    var a, b := AddrOf(m, src), AddrOf(m, second);
    assert LongHere(m, a, bhi) && LongHere(m, b, bhi);
    hide Got, LeaCode, At, Aligned, AddrOf, Frame;
    var c := LeaCode(src, RI);
    assert [] + c == c;
    var m1 := GotLea(m, [], m, src, RI);
    var m2 := GotLea(m, c, m1, second, RJ);
    c := c + LeaCode(second, RJ);
    var m3 := GotLoad(m, c, m2, bhi, a, RI, RO1);
    c := c + [Lw(bhi, RI, RO1)];
    var m4 := GotLoad(m, c, m3, bhi, b, RJ, RO2);
    m' := GotLoad(m, c + [Lw(bhi, RJ, RO2)], m4, 4 - bhi, a, RI, RI);
  }

  /** The branch of cbral is taken, or it falls through to its end. */
  ghost predicate Decides(code: seq<Instr>, m: Machine, t: int, taken: bool) {
    exists u :: Comes(code, m, u) && u.pc == (if taken then t else |code|) && u.npc == u.pc + 1
  }

  lemma Decided(code: seq<Instr>, m: Machine, t: int, taken: bool, u: Cpu)
    requires Comes(code, m, u) && u.pc == (if taken then t else |code|) && u.npc == u.pc + 1
    ensures Decides(code, m, t, taken)
  {
  }

  /** At the end of the head. */
  lemma Head(m: Machine, src: Adr, second: Adr, bhi: int, tail: seq<Instr>) returns (u: Cpu)
    requires Valid(m) && Usable(m, src, bhi) && Usable(m, second, bhi)
    ensures Comes(HeadCode(src, second, bhi) + tail, m, u) && Loaded(m, u.m, src, second, bhi)
    ensures u.pc == |HeadCode(src, second, bhi)| && u.npc == u.pc + 1
  {
    var c := HeadCode(src, second, bhi);
    var m1 := HeadGot(m, src, second, bhi);
    u := Cpu(m1, |c|, |c| + 1);
    hide Reaches, Frame, HeadCode, Loaded;
    assert Valid(m1) by { LoadedValid(m, m1, src, second, bhi); }
    RunReaches(m, c, c + tail, m1);
  }

  lemma LoadedValid(m: Machine, m1: Machine, src: Adr, second: Adr, bhi: int)
    requires Valid(m) && Usable(m, src, bhi) && Usable(m, second, bhi) && Loaded(m, m1, src, second, bhi)
    ensures Valid(m1)
  {
  }

  /** Equality and its opposite. */
  lemma EqualMeans(eq: bool, src: Adr, second: Adr, bhi: int, t: int, m: Machine)
    requires Valid(m) && Usable(m, src, bhi) && Usable(m, second, bhi)
    ensures var h := HeadCode(src, second, bhi);
            Decides(h + TailCode(eq, if eq then AndAnd else OrOr, bhi, |h|, t), m, t,
                    (SignedLongOf(m, src, bhi) == SignedLongOf(m, second, bhi)) == eq)
  {
    EqualHalves(m, src, second, bhi);
    hide Comes, HeadCode, AddrOf, At, Aligned, SignedLong, Signed, SignedLongOf;
    var h := HeadCode(src, second, bhi);
    var n, b := |h|, AddrOf(m, second);
    var tail := TailCode(eq, if eq then AndAnd else OrOr, bhi, n, t);
    var code := h + tail;
    EqualTailAt(h, tail);
    var u0 := Head(m, src, second, bhi, tail);
    var u1 := ComesBranch(code, m, u0, false, RO2, RO1, if eq then 4 else t - n - 1);
    var u2 := ComesLoad(code, m, u1, 4 - bhi, b);
    if u0.m.reg[RO1] != u0.m.reg[RO2] {
      Decided(code, m, t, !eq, u2);
    } else {
      var u3 := ComesDelay(code, m, u2);
      var u4 := ComesBranch(code, m, u3, eq, RJ, RI, t - n - 4);
      var u5 := ComesDelay(code, m, u4);
      Decided(code, m, t, (u5.m.reg[RJ] == u5.m.reg[RI]) == eq, u5);
    }
  }

  lemma EqualHalves(m: Machine, src: Adr, second: Adr, bhi: int)
    requires Valid(m) && Usable(m, src, bhi) && Usable(m, second, bhi)
    ensures var a, b := AddrOf(m, src), AddrOf(m, second);
            && LongHere(m, a, bhi) && LongHere(m, b, bhi)
            && (SignedLongOf(m, src, bhi) == SignedLongOf(m, second, bhi)
                <==> Hi(m, a, bhi) == Hi(m, b, bhi) && Lo(m, a, bhi) == Lo(m, b, bhi))
  {
    var a, b := AddrOf(m, src), AddrOf(m, second);
    CompareHalves(Hi(m, a, bhi), Lo(m, a, bhi), Hi(m, b, bhi), Lo(m, b, bhi));
    hide Aligned, At, SignedLong;
  }

  lemma EqualTailAt(h: seq<Instr>, tail: seq<Instr>)
    requires |tail| == 5
    ensures var c, n := h + tail, |h|;
            && c[n] == tail[0] && c[n + 1] == tail[1] && c[n + 2] == tail[2] && c[n + 3] == tail[3] && c[n + 4] == tail[4]
  {
  }

  /** One of two words is below the other. */
  predicate Below(rev: bool, x: int, y: int) {
    if rev then x < y else y < x
  }

  /** A comparison into Ro3. */
  lemma ComesCompare(code: seq<Instr>, m: Machine, u: Cpu, op: Op3, rev: bool, r1: int, r2: int) returns (v: Cpu)
    requires Comes(code, m, u) && 0 <= u.pc < |code| && code[u.pc] == Ordered(op, rev, r1, r2) && Valid(u.m)
    requires Working(r1) && Working(r2) && (op == Slt || op == Sltu)
    ensures var a, b := u.m.reg[r1], u.m.reg[r2];
            var x: Word := if (if op == Slt then Below(rev, Signed(a), Signed(b)) else Below(rev, a, b)) then 1 else 0;
            v == Cpu(u.m.(reg := u.m.reg[RO3 := x]), u.npc, u.npc + 1)
    ensures Valid(v.m) && Comes(code, m, v)
  {
    var a, b := u.m.reg[r1], u.m.reg[r2];
    var x: Word := if (if op == Slt then Below(rev, Signed(a), Signed(b)) else Below(rev, a, b)) then 1 else 0;
    if rev {
      RrrDoes(u.m, op, r2, r1, RO3, x);
    } else {
      RrrDoes(u.m, op, r1, r2, RO3, x);
    }
    hide Exec, Comes, Signed;
    v := ComesPlain(code, m, u, Ordered(op, rev, r1, r2), RO3, x);
  }

  /** The high halves decide if they differ, and the low ones otherwise. */
  predicate Verdict(onEqual: bool, rev1: bool, rev2: bool, ah: Word, al: Word, bh: Word, bl: Word) {
    Below(rev1, Signed(ah), Signed(bh)) || (ah == bh && Below(rev2, al, bl) != onEqual)
  }

  lemma VerdictIs(rel: Rel, ah: Word, al: Word, bh: Word, bl: Word)
    requires rel != Eq && rel != Ne
    ensures Verdict(OnEqual(rel), ModeOf(rel).rev1, ModeOf(rel).rev2, ah, al, bh, bl) <==>
            Related(rel, SignedLong(ah, al), SignedLong(bh, bl))
  {
    CompareHalves(ah, al, bh, bl);
    CompareHalves(bh, bl, ah, al);
  }

  lemma OrderMeans(onEqual: bool, rev1: bool, rev2: bool, src: Adr, second: Adr, bhi: int, t: int, m: Machine)
    requires Valid(m) && Usable(m, src, bhi) && Usable(m, second, bhi)
    ensures var h := HeadCode(src, second, bhi);
            var a, b := AddrOf(m, src), AddrOf(m, second);
            Decides(h + TailCode(onEqual, EqAnd(rev1, rev2), bhi, |h|, t), m, t,
                    Verdict(onEqual, rev1, rev2, Hi(m, a, bhi), Lo(m, a, bhi), Hi(m, b, bhi), Lo(m, b, bhi)))
  {
    var h := HeadCode(src, second, bhi);
    var n, b := |h|, AddrOf(m, second);
    var tail := TailCode(onEqual, EqAnd(rev1, rev2), bhi, n, t);
    var code := h + tail;
    assert LongHere(m, b, bhi);
    TailAt(h, tail);
    hide Comes, HeadCode, AddrOf, At, Aligned, Signed, Ordered;
    var u0 := Head(m, src, second, bhi, tail);
    var u1 := ComesCompare(code, m, u0, Slt, rev1, RO1, RO2);
    var u2 := ComesBranch(code, m, u1, false, RO3, 0, t - n - 2);
    var u3 := ComesLoad(code, m, u2, 4 - bhi, b);
    assert u3.m.reg[0] == 0;
    if u1.m.reg[RO3] != 0 {
      Decided(code, m, t, true, u3);
    } else {
      LowDecides(code, m, onEqual, rev2, n, t, u3);
    }
  }

  lemma TailAt(h: seq<Instr>, tail: seq<Instr>)
    requires |tail| == 7
    ensures var c, n := h + tail, |h|;
            && c[n] == tail[0] && c[n + 1] == tail[1] && c[n + 2] == tail[2] && c[n + 3] == tail[3]
            && c[n + 4] == tail[4] && c[n + 5] == tail[5] && c[n + 6] == tail[6]
  {
  }

  /** From the second branch on. */
  lemma LowDecides(code: seq<Instr>, m: Machine, onEqual: bool, rev2: bool, n: int, t: int, u: Cpu)
    requires 0 <= n && |code| == n + 7 && Comes(code, m, u) && Valid(u.m) && u.pc == n + 3 && u.npc == n + 4
    requires code[n + 3] == Bne(RO2, RO1, 3) && code[n + 4] == Ordered(Sltu, rev2, RI, RJ)
    requires code[n + 5] == Branch(onEqual, RO3, 0, t - n - 6) && code[n + 6] == Delay
    ensures Decides(code, m, t, u.m.reg[RO1] == u.m.reg[RO2] && Below(rev2, u.m.reg[RI], u.m.reg[RJ]) != onEqual)
  {
    hide Comes, Ordered;
    var u1 := ComesBranch(code, m, u, false, RO2, RO1, 3);
    var u2 := ComesCompare(code, m, u1, Sltu, rev2, RI, RJ);
    assert u2.m.reg[0] == 0;
    if u.m.reg[RO1] != u.m.reg[RO2] {
      Decided(code, m, t, false, u2);
    } else {
      var u3 := ComesBranch(code, m, u2, onEqual, RO3, 0, t - n - 6);
      var u4 := ComesDelay(code, m, u3);
      Decided(code, m, t, Below(rev2, u.m.reg[RI], u.m.reg[RJ]) != onEqual, u4);
    }
  }

  /** The branches of comp: for all operands, the branch is taken exactly when
      the 64-bit numbers, with their signs, are so related. */
  method BranchLong(rel: Rel, src: Adr, second: Adr, bhi: int, t: int) returns (code: seq<Instr>)
    ensures forall m: Machine ::
              Valid(m) && Usable(m, src, bhi) && Usable(m, second, bhi) ==>
                Decides(code, m, t, Related(rel, SignedLongOf(m, src, bhi), SignedLongOf(m, second, bhi)))
  {
    code := Cbral(OnEqual(rel), ModeOf(rel), src, second, bhi, t);
    hide Decides, HeadCode, TailCode, AddrOf, LongHere, SignedLong;
    forall m: Machine | Valid(m) && Usable(m, src, bhi) && Usable(m, second, bhi)
      ensures Decides(code, m, t, Related(rel, SignedLongOf(m, src, bhi), SignedLongOf(m, second, bhi)))
    {
      BranchMeans(rel, src, second, bhi, t, m);
    }
  }

  lemma BranchMeans(rel: Rel, src: Adr, second: Adr, bhi: int, t: int, m: Machine)
    requires Valid(m) && Usable(m, src, bhi) && Usable(m, second, bhi)
    ensures var h := HeadCode(src, second, bhi);
            Decides(h + TailCode(OnEqual(rel), ModeOf(rel), bhi, |h|, t), m, t,
                    Related(rel, SignedLongOf(m, src, bhi), SignedLongOf(m, second, bhi)))
  {
    hide Decides, HeadCode, TailCode, AddrOf, SignedLong, Verdict;
    if rel == Eq || rel == Ne {
      EqualMeans(rel == Eq, src, second, bhi, t, m);
    } else {
      var a, b := AddrOf(m, src), AddrOf(m, second);
      OrderMeans(OnEqual(rel), ModeOf(rel).rev1, ModeOf(rel).rev2, src, second, bhi, t, m);
      VerdictIs(rel, Hi(m, a, bhi), Lo(m, a, bhi), Hi(m, b, bhi), Lo(m, b, bhi));
    }
  }
}
