/**
 Emitting constants (libinterp/comp-arm.c:390-461) and what the emitted code
 does: each constant ends up in its register, whether it is built in place or
 loaded from the literals that are laid down later, and the literals
 themselves are never run into.
 */
module ArmLiterals {
  import opened Basics
  import opened Words
  import opened ArmMachine
  import opened ArmConstants

  const NCON := (0xFFC - 8) / 4

  // ------------------------------------------------------------------
  // Running code

  function Addr(base: int, i: int): int { base + 4 * i }

  /** The code is in memory at base. */
  ghost predicate Loaded(m: Machine, base: int, code: seq<Word>) {
    && base % 4 == 0 && 0 <= base && Addr(base, |code|) + 8 < WORD
    && forall i :: 0 <= i < |code| ==> Addr(base, i) in m.mem && m.mem[Addr(base, i)] == code[i]
  }

  ghost predicate Reaches(m: Machine, m': Machine)
    requires Valid(m)
  {
    exists k: nat :: Run(m, k) == Some(m')
  }

  lemma ReachesSelf(m: Machine)
    requires Valid(m)
    ensures Reaches(m, m)
  {
    assert Run(m, 0) == Some(m);
  }

  lemma ReachesStep(m: Machine, i: Instr, m': Machine)
    requires Valid(m) && At(m, i) && Execute(m, i) == Some(m')
    ensures Valid(m') && Reaches(m, m')
  {
    StepAt(m, i);
    hide Execute, Step;
    assert Run(m', 0) == Some(m');
    assert Run(m, 1) == Some(m');
  }

  lemma ReachesTrans(m: Machine, m': Machine, m'': Machine)
    requires Valid(m) && Valid(m') && Reaches(m, m') && Reaches(m', m'')
    ensures Reaches(m, m'')
  {
    var j: nat :| Run(m, j) == Some(m');
    var k: nat :| Run(m', k) == Some(m'');
    hide Run;
    RunMore(m, j, k);
  }

  /** The code from i to j puts o into register r if the condition holds, and
      does nothing else. */
  ghost predicate Leaves(code: seq<Word>, i: nat, j: nat, cc: int, r: int, o: Word) {
    forall base: int, m: Machine ::
      Valid(m) && Loaded(m, base, code) && m.pc == Addr(base, i) && 0 <= r < 15 ==>
        Reaches(m, m.(pc := Addr(base, j), reg := if Cond(cc, m) then m.reg[r := o] else m.reg))
  }

  /** The code from i to j does nothing. */
  ghost predicate Falls(code: seq<Word>, i: nat, j: nat) {
    forall base: int, m: Machine ::
      Valid(m) && Loaded(m, base, code) && m.pc == Addr(base, i) ==> Reaches(m, m.(pc := Addr(base, j)))
  }

  lemma AtCode(m: Machine, base: int, code: seq<Word>, i: nat, x: Instr)
    requires Loaded(m, base, code) && m.pc == Addr(base, i) && i < |code| && x.Fits() && code[i] == Encode(x)
    ensures At(m, x)
  {
    hide Encode;
  }

  // ------------------------------------------------------------------
  // The emitted pieces

  /** A branch around literals, or nothing. */
  predicate Skips(code: seq<Word>, i: nat, j: nat) {
    i <= j <= |code| && (i < j ==> i + 2 <= j < i + 0x1000 && code[i] == Encode(Branch(AL, j - i - 2)))
  }

  lemma SkipsFalls(code: seq<Word>, i: nat, j: nat)
    requires Skips(code, i, j)
    ensures Falls(code, i, j)
  {
    hide Encode, Execute, Loaded;
    forall base: int, m: Machine | Valid(m) && Loaded(m, base, code) && m.pc == Addr(base, i)
      ensures Reaches(m, m.(pc := Addr(base, j)))
    {
      if i == j {
        assert m.(pc := Addr(base, j)) == m;
        ReachesSelf(m);
      } else {
        var x := Branch(AL, j - i - 2);
        AtCode(m, base, code, i, x);
        BranchDoes(m, x);
        ReachesStep(m, x, m.(pc := Addr(base, j)));
      }
    }
  }

  lemma BranchDoes(m: Machine, x: Instr)
    requires Valid(m) && x.Branch? && x.Fits() && x.cc == AL && x.off < 0x1000
    ensures Execute(m, x) == Some(m.(pc := m.pc + 8 + 4 * x.off))
  {
  }

  function MoveImm(cc: int, op: int, rn: int, r: int, ro: int, imm: int): Instr {
    Dpi(cc, op, false, rn, r, ro, imm)
  }

  function LoadInstr(cc: int, r: int, disp: int): Instr {
    Mem(cc, true, true, 15, r, disp)
  }

  /** The words of ccon that need no literal. */
  ghost predicate InPlace(code: seq<Word>, i: nat, j: nat, cc: int, r: int, o: Word)
    requires 0 <= cc < 16 && 0 <= r < 15
  {
    || (j == i + 1 <= |code| && exists ro, imm ::
          0 <= ro < 16 && Rotated(o, ro, imm) && code[i] == Encode(MoveImm(cc, MOV, 0, r, ro, imm)))
    || (j == i + 1 <= |code| && WORD - 256 <= o && code[i] == Encode(MoveImm(cc, MVN, 0, r, 0, WORD - 1 - o)))
    || (j == i + 2 <= |code| && o < 0x10000
        && code[i] == Encode(MoveImm(cc, MOV, 0, r, 0, o % 256)) && code[i + 1] == Encode(MoveImm(cc, ORR, r, r, 12, o / 256)))
  }

  /** The load at `at` reads the literal at `lit`. */
  predicate Resolved(code: seq<Word>, l: Load, lit: int)
    requires l.Fits()
  {
    && l.at + 2 <= lit < |code| && lit - l.at - 2 < 1024
    && code[l.at] == Encode(LoadInstr(l.cc, l.r, 4 * (lit - l.at - 2))) && code[lit] == l.o
  }

  /** A load of o into r, emitted at `at`. */
  datatype Load = Load(cc: int, r: int, o: Word, at: nat) {
    predicate Fits() { 0 <= cc < 16 && 0 <= r < 15 }
  }

  /** An operation on a register and a rotated immediate. */
  lemma ImmDoes(m: Machine, cc: int, op: int, rn: int, r: int, ro: nat, imm: int, x: Word)
    requires Valid(m) && 0 <= cc < 16 && 0 <= r < 15 && 0 <= rn < 15 && ro < 16 && 0 <= imm < 256 && 0 <= op < 16 && op != CMP
    requires Alu(op, m.reg[rn], Ror(imm, ro)) == Some(x)
    ensures Execute(m, MoveImm(cc, op, rn, r, ro, imm)) ==
            Some(m.(pc := m.pc + 4, reg := if Cond(cc, m) then m.reg[r := x] else m.reg))
  {
    hide Cond, Ror, Alu;
  }

  /** A move of a rotated immediate. */
  lemma MoveDoes(m: Machine, cc: int, r: int, ro: nat, imm: int)
    requires Valid(m) && 0 <= cc < 16 && 0 <= r < 15 && ro < 16 && 0 <= imm < 256
    ensures Execute(m, MoveImm(cc, MOV, 0, r, ro, imm)) ==
            Some(m.(pc := m.pc + 4, reg := if Cond(cc, m) then m.reg[r := Ror(imm, ro)] else m.reg))
    ensures Execute(m, MoveImm(cc, MVN, 0, r, 0, imm)) ==
            Some(m.(pc := m.pc + 4, reg := if Cond(cc, m) then m.reg[r := WORD - 1 - imm] else m.reg))
  {
    assert Ror(imm, 0) == imm;
    hide Cond, Execute, Ror;
    ImmDoes(m, cc, MOV, 0, r, ro, imm, Ror(imm, ro));
    ImmDoes(m, cc, MVN, 0, r, 0, imm, WORD - 1 - imm);
  }

  lemma OrDoes(m: Machine, cc: int, r: int, imm: int)
    requires Valid(m) && 0 <= cc < 16 && 0 <= r < 15 && 0 <= imm < 256 && m.reg[r] < 256
    ensures Execute(m, MoveImm(cc, ORR, r, r, 12, imm)) ==
            Some(m.(pc := m.pc + 4, reg := if Cond(cc, m) then m.reg[r := m.reg[r] + 256 * imm] else m.reg))
  {
    RorHigh(imm);
    OrHigh(m.reg[r], imm);
    hide Cond, Ror, Or, Execute;
    ImmDoes(m, cc, ORR, r, r, 12, imm, m.reg[r] + 256 * imm);
  }

  lemma LoadDoes(m: Machine, cc: int, r: int, disp: int)
    requires Valid(m) && 0 <= cc < 16 && 0 <= r < 15 && 0 <= disp < 4096 && 0 <= m.pc && m.pc + 8 + disp < WORD
    requires (m.pc + 8 + disp) % 4 == 0 && m.pc + 8 + disp in m.mem
    ensures Execute(m, LoadInstr(cc, r, disp)) ==
            Some(m.(pc := m.pc + 4, reg := if Cond(cc, m) then m.reg[r := m.mem[m.pc + 8 + disp]] else m.reg))
  {
    hide Cond;
  }

  /** Rotating a byte right by 24 is shifting it left by eight. */
  lemma RorHigh(b: int)
    requires 0 <= b < 256
    ensures Ror(b, 12) == 256 * b
  {
    var d0, d1, d2, d3 := b % 4, b / 4 % 4, b / 16 % 4, b / 64;
    Digits(b);
    assert Ror(b, 0) == b;
    hide Ror;
    RorNext(b, 0, b / 4, d0);
    RorNext(b, 1, b / 16 + d0 * 0x1000_0000, d1);
    RorNext(b, 2, b / 64 + d0 * 0x400_0000 + d1 * 0x1000_0000, d2);
    RorNext(b, 3, d0 * 0x100_0000 + d1 * 0x400_0000 + d2 * 0x1000_0000, d3);
    RorNext(b, 4, b * 0x40_0000, 0);
    RorNext(b, 5, b * 0x10_0000, 0);
    RorNext(b, 6, b * 0x4_0000, 0);
    RorNext(b, 7, b * 0x1_0000, 0);
    RorNext(b, 8, b * 0x4000, 0);
    RorNext(b, 9, b * 0x1000, 0);
    RorNext(b, 10, b * 0x400, 0);
    RorNext(b, 11, b * 0x100, 0);
  }

  lemma Digits(b: int)
    requires 0 <= b < 256
    ensures b == b % 4 + 4 * (b / 4) && b / 4 == b / 4 % 4 + 4 * (b / 16) && b / 16 == b / 16 % 4 + 4 * (b / 64)
    ensures 0 <= b / 64 < 4
  {
  }

  lemma RorNext(b: int, k: nat, q: int, low: int)
    requires 0 <= b < 256 && 0 <= low < 4 && Ror(b, k) == 4 * q + low
    ensures Ror(b, k + 1) == q + low * 0x4000_0000
  {
    DivMod(q, 4, low);
  }

  lemma OrHigh(a: int, b: int)
    requires 0 <= a < 256 && 0 <= b
    ensures Or(a, 256 * b) == a + 256 * b
  {
    hide Or;
    assert Pow2(8) == 2 * Pow2(7) == 4 * Pow2(6) == 8 * Pow2(5) == 16 * Pow2(4);
    OrApart(a, b, 8);
  }

  // ------------------------------------------------------------------
  // What the pieces do

  lemma InPlaceLeaves(code: seq<Word>, i: nat, j: nat, cc: int, r: int, o: Word)
    requires 0 <= cc < 16 && 0 <= r < 15 && InPlace(code, i, j, cc, r, o)
    ensures Leaves(code, i, j, cc, r, o)
  {
    hide Encode, Execute, Loaded, Rotated, Reaches;
    forall base: int, m: Machine | Valid(m) && Loaded(m, base, code) && m.pc == Addr(base, i)
      ensures Reaches(m, m.(pc := Addr(base, j), reg := if Cond(cc, m) then m.reg[r := o] else m.reg))
    {
      if j == i + 2 && o < 0x10000 && code[i] == Encode(MoveImm(cc, MOV, 0, r, 0, o % 256))
         && code[i + 1] == Encode(MoveImm(cc, ORR, r, r, 12, o / 256))
      {
        TwoMoves(code, i, cc, r, o, base, m);
      } else {
        OneMove(code, i, cc, r, o, base, m);
      }
    }
  }

  lemma OneMove(code: seq<Word>, i: nat, cc: int, r: int, o: Word, base: int, m: Machine)
    requires 0 <= cc < 16 && 0 <= r < 15 && i + 1 <= |code|
    requires
      || (exists ro, imm :: 0 <= ro < 16 && Rotated(o, ro, imm) && code[i] == Encode(MoveImm(cc, MOV, 0, r, ro, imm)))
      || (WORD - 256 <= o && code[i] == Encode(MoveImm(cc, MVN, 0, r, 0, WORD - 1 - o)))
    requires Valid(m) && Loaded(m, base, code) && m.pc == Addr(base, i)
    ensures Reaches(m, m.(pc := Addr(base, i + 1), reg := if Cond(cc, m) then m.reg[r := o] else m.reg))
  {
    hide Encode, Execute, Loaded, Reaches, Cond, Ror;
    var m' := m.(pc := Addr(base, i + 1), reg := if Cond(cc, m) then m.reg[r := o] else m.reg);
    if WORD - 256 <= o && code[i] == Encode(MoveImm(cc, MVN, 0, r, 0, WORD - 1 - o)) {
      var x := MoveImm(cc, MVN, 0, r, 0, WORD - 1 - o);
      AtCode(m, base, code, i, x);
      MoveDoes(m, cc, r, 0, WORD - 1 - o);
      ReachesStep(m, x, m');
    } else {
      var ro, imm :| 0 <= ro < 16 && Rotated(o, ro, imm) && code[i] == Encode(MoveImm(cc, MOV, 0, r, ro, imm));
      var x := MoveImm(cc, MOV, 0, r, ro, imm);
      AtCode(m, base, code, i, x);
      MoveDoes(m, cc, r, ro, imm);
      ReachesStep(m, x, m');
    }
  }

  lemma TwoMoves(code: seq<Word>, i: nat, cc: int, r: int, o: Word, base: int, m: Machine)
    requires 0 <= cc < 16 && 0 <= r < 15 && i + 2 <= |code| && o < 0x10000
    requires code[i] == Encode(MoveImm(cc, MOV, 0, r, 0, o % 256)) && code[i + 1] == Encode(MoveImm(cc, ORR, r, r, 12, o / 256))
    requires Valid(m) && Loaded(m, base, code) && m.pc == Addr(base, i)
    ensures Reaches(m, m.(pc := Addr(base, i + 2), reg := if Cond(cc, m) then m.reg[r := o] else m.reg))
  {
    var x := MoveImm(cc, MOV, 0, r, 0, o % 256);
    var a := m.(pc := Addr(base, i + 1), reg := if Cond(cc, m) then m.reg[r := o % 256] else m.reg);
    assert Ror(o % 256, 0) == o % 256;
    assert Loaded(a, base, code);
    SameCond(cc, m, a);
    hide Encode, Execute, Loaded, Reaches, Cond, Ror;
    AtCode(m, base, code, i, x);
    MoveDoes(m, cc, r, 0, o % 256);
    ReachesStep(m, x, a);
    SecondMove(code, i, cc, r, o, base, a);
    assert Cond(cc, m) ==> a.reg[r := o] == m.reg[r := o];
    ReachesTrans(m, a, a.(pc := Addr(base, i + 2), reg := if Cond(cc, a) then a.reg[r := o] else a.reg));
  }

  lemma SecondMove(code: seq<Word>, i: nat, cc: int, r: int, o: Word, base: int, m: Machine)
    requires 0 <= cc < 16 && 0 <= r < 15 && i + 2 <= |code| && o < 0x10000
    requires code[i + 1] == Encode(MoveImm(cc, ORR, r, r, 12, o / 256))
    requires Valid(m) && Loaded(m, base, code) && m.pc == Addr(base, i + 1)
    requires Cond(cc, m) ==> m.reg[r] == o % 256
    ensures Reaches(m, m.(pc := Addr(base, i + 2), reg := if Cond(cc, m) then m.reg[r := o] else m.reg))
  {
    var y := MoveImm(cc, ORR, r, r, 12, o / 256);
    hide Encode, Execute, Loaded, Reaches, Cond, Ror;
    AtCode(m, base, code, i + 1, y);
    if Cond(cc, m) {
      OrDoes(m, cc, r, o / 256);
    } else {
      OrSkipped(m, y);
    }
    ReachesStep(m, y, m.(pc := Addr(base, i + 2), reg := if Cond(cc, m) then m.reg[r := o] else m.reg));
  }

  lemma OrSkipped(m: Machine, x: Instr)
    requires Valid(m) && x.Fits() && !Cond(x.cc, m)
    ensures Execute(m, x) == Some(m.(pc := m.pc + 4))
  {
  }

  /** A load behind a branch around earlier literals. */
  lemma LoadLeaves(code: seq<Word>, i: nat, l: Load, lit: int)
    requires l.Fits() && Skips(code, i, l.at) && Resolved(code, l, lit)
    ensures Leaves(code, i, l.at + 1, l.cc, l.r, l.o)
  {
    SkipsFalls(code, i, l.at);
    var x := LoadInstr(l.cc, l.r, 4 * (lit - l.at - 2));
    hide Encode, Execute, Reaches, Cond, Skips;
    forall base: int, m: Machine | Valid(m) && Loaded(m, base, code) && m.pc == Addr(base, i)
      ensures Reaches(m, m.(pc := Addr(base, l.at + 1), reg := if Cond(l.cc, m) then m.reg[l.r := l.o] else m.reg))
    {
      var a := m.(pc := Addr(base, l.at));
      assert Reaches(m, a);
      SameCond(l.cc, m, a);
      LoadReaches(code, l, lit, base, a);
      ReachesTrans(m, a, a.(pc := Addr(base, l.at + 1), reg := if Cond(l.cc, a) then a.reg[l.r := l.o] else a.reg));
    }
  }

  lemma SameCond(cc: int, m: Machine, m': Machine)
    requires m.n == m'.n && m.z == m'.z && m.c == m'.c && m.v == m'.v
    ensures Cond(cc, m) == Cond(cc, m')
  {
  }

  lemma LoadReaches(code: seq<Word>, l: Load, lit: int, base: int, m: Machine)
    requires l.Fits() && Resolved(code, l, lit)
    requires Valid(m) && Loaded(m, base, code) && m.pc == Addr(base, l.at)
    ensures Reaches(m, m.(pc := Addr(base, l.at + 1), reg := if Cond(l.cc, m) then m.reg[l.r := l.o] else m.reg))
  {
    var disp := 4 * (lit - l.at - 2);
    var x := LoadInstr(l.cc, l.r, disp);
    AtCode(m, base, code, l.at, x);
    assert m.pc + 8 + disp == Addr(base, lit);
    assert code[lit] == l.o;
    hide Encode, Execute, Cond;
    LoadDoes(m, l.cc, l.r, disp);
    ReachesStep(m, x, m.(pc := Addr(base, l.at + 1), reg := if Cond(l.cc, m) then m.reg[l.r := l.o] else m.reg));
  }

  // ------------------------------------------------------------------
  // The emitter

  /** A pending literal and the place of the load that waits for it. */
  datatype Const = Const(o: Word, at: nat)

  /** What a word is: an instruction that stays as it is, a load whose offset
      may still be filled in, or a literal. */
  datatype Kind = Plain | Waiting | Literal

  /** Nothing but waiting loads has changed, and something was added. */
  ghost predicate Grown(code: seq<Word>, kind: seq<Kind>, code': seq<Word>, kind': seq<Kind>)
    requires |code| == |kind| && |code'| == |kind'|
  {
    && |code| <= |code'|
    && forall j :: 0 <= j < |kind| ==> kind'[j] == kind[j] && (kind[j] != Waiting ==> code'[j] == code[j])
  }

  /** The loads after the first n wait for the literals of the pool. */
  ghost predicate Pending(code: seq<Word>, pool: seq<Const>, loads: seq<Load>, n: nat) {
    && |loads| == n + |pool|
    && forall k :: n <= k < |loads| ==>
         && loads[k].Fits() && loads[k].at < |code| && code[loads[k].at] == Encode(LoadInstr(loads[k].cc, loads[k].r, 0))
         && pool[k - n] == Const(loads[k].o, loads[k].at)
  }

  /** The others read their literals, which are at lits. */
  ghost predicate AllResolved(code: seq<Word>, loads: seq<Load>, lits: seq<int>) {
    && |lits| <= |loads|
    && forall k :: 0 <= k < |lits| ==> loads[k].Fits() && Resolved(code, loads[k], lits[k])
  }

  ghost predicate Places(kind: seq<Kind>, loads: seq<Load>, lits: seq<int>) {
    && (forall k :: 0 <= k < |loads| ==> loads[k].at < |kind| && kind[loads[k].at] == Waiting)
    && (forall k :: 0 <= k < |lits| ==> 0 <= lits[k] < |kind| && kind[lits[k]] == Literal)
    && (forall j, k :: 0 <= j < k < |loads| ==> loads[j].at < loads[k].at)
  }

  class Emitter {
    const patching: bool        // the second pass
    var code: seq<Word>
    var pool: seq<Const>
    ghost var kind: seq<Kind>
    ghost var loads: seq<Load>
    ghost var lits: seq<int>
    ghost var since: nat        // words emitted since flushchk was called

    ghost predicate Valid()
      reads this
    {
      && |kind| == |code| && |pool| <= NCON
      && Pending(code, pool, loads, |lits|) && Places(kind, loads, lits)
      && (patching ==> AllResolved(code, loads, lits))
      && (pool != [] ==> |code| - pool[0].at <= 957 + since)
    }

    constructor (second: bool)
      ensures Valid() && fresh(this)
      ensures patching == second && code == [] && pool == [] && loads == [] && lits == [] && since == 0
    {
      patching := second;
      code, pool, kind, loads, lits, since := [], [], [], [], [], 0;
    }

    /** `gen`, and the macros that emit one word. */
    method Gen(w: Word)
      requires Valid()
      modifies this`code, this`kind, this`since
      ensures Valid() && since == old(since) + 1
      ensures code == old(code) + [w] && kind == old(kind) + [Plain]
    {
      GenKeeps(code, kind, pool, loads, lits, w, Plain);
      hide Pending, AllResolved, Places;
      code := code + [w];
      kind := kind + [Plain];
      since := since + 1;
    }

    /** The state while literals are laid down and those of `rest` are left. */
    ghost predicate Laying(rest: seq<Const>)
      reads this`code, this`kind, this`loads, this`lits
    {
      && |kind| == |code| && Pending(code, rest, loads, |lits|) && Places(kind, loads, lits)
      && (patching ==> AllResolved(code, loads, lits))
    }

    /** Lay down one literal, and in the second pass fill in its load. */
    method Lay(c: Const, ghost rest: seq<Const>)
      requires rest != [] && rest[0] == c && Laying(rest) && 0 <= |code| - c.at - 2 < 1024
      modifies this`code, this`kind, this`lits
      ensures Laying(rest[1..]) && |code| == old(|code|) + 1 == |kind| && Grown(old(code), old(kind), code, kind)
    {
      FlushStep(code, kind, rest, loads, lits, patching);
      hide Pending, AllResolved, Places, Grown;
      ghost var was := |code|;
      if patching {
        var disp := (|code| - c.at) * 4 - 8;
        code := code[c.at := code[c.at] + disp % 4096];
      }
      code := code + [c.o];
      kind := kind + [Literal];
      lits := lits + [was];
    }

    /** `flushcon`: lay down the literals, with a branch around them if control
        could run into them. */
    method FlushCon(genbr: bool)
      requires Valid()
      requires pool == [] || since <= 67
      requires genbr || |pool| != 1 || pool[0].at + 2 <= |code|
      modifies this`code, this`pool, this`kind, this`lits
      ensures Valid() && pool == []
      ensures Grown(old(code), old(kind), code, kind)
      ensures |code| == old(|code|) + if old(pool) == [] then 0 else old(|pool|) + if genbr then 1 else 0
      ensures genbr ==> SkipSite(code, kind, old(|code|), |code|)
    {
      if pool == [] { return; }
      Spread(loads, |lits|, pool, code);
      assert Laying(pool) && pool[0..] == pool;
      ghost var before, kinds := code, kind;
      ghost var mid, midKind := code, kind;
      if genbr {
        Branches(|pool| - 1);
        mid, midKind := code, kind;
      }
      hide Laying, Grown;
      GrownSelf(mid, midKind);
      for i := 0 to |pool|
        invariant pool == old(pool)
        invariant Laying(pool[i..]) && |code| == |mid| + i == |kind| && Grown(mid, midKind, code, kind)
      {
        ghost var c, d := code, kind;
        Lay(pool[i], pool[i..]);
        assert pool[i..][1..] == pool[i + 1..];
        GrownTrans(mid, midKind, c, d, code, kind);
      }
      assert pool[|pool|..] == [];
      GrownTrans(before, kinds, mid, midKind, code, kind);
      if genbr { BranchStays(before, mid, midKind, code, kind, |pool|); }
      pool := [];
      Done();
    }

    lemma Done()
      requires Laying([]) && pool == []
      ensures Valid()
    {
    }

    /** The branch around k + 1 literals. */
    method Branches(k: nat)
      requires Laying(pool) && k < NCON
      modifies this`code, this`kind
      ensures Laying(pool) && code == old(code) + [Encode(Branch(AL, k))] && kind == old(kind) + [Plain]
      ensures Grown(old(code), old(kind), code, kind)
    {
      GenKeeps(code, kind, pool, loads, lits, Encode(Branch(AL, k)), Plain);
      hide Pending, AllResolved, Places, Encode;
      code := code + [Encode(Branch(AL, k))];
      kind := kind + [Plain];
    }

    /** The table is full, or its first load is about to lose sight of it. */
    predicate Due()
      reads this`code, this`pool
    {
      |pool| >= NCON || (|pool| > 0 && (|code| + 2 - pool[0].at) * 4 >= 4096 - 256)
    }

    /** `flushchk` */
    method FlushChk()
      requires Valid() && (pool == [] || since <= 67)
      modifies this`code, this`pool, this`kind, this`lits, this`since
      ensures Valid() && since == 0 && |pool| < NCON
      ensures Grown(old(code), old(kind), code, kind)
      ensures SkipSite(code, kind, old(|code|), |code|)
      ensures if old(|pool| >= 1021 || (|pool| > 0 && 4 * (|code| + 2 - pool[0].at) >= 3840)) then
                pool == [] && |code| == old(|code|) + 1 + old(|pool|)
              else
                pool == old(pool) && code == old(code)
    {
      hide Pending, AllResolved, Places, Grown;
      if Due() {
        FlushCon(true);
      } else {
        GrownSelf(code, kind);
      }
      since := 0;
    }

    /** The forms of ccon that need no literal, if there is one for o. */
    method InPlaceCon(cc: int, o: Word, r: int) returns (done: bool)
      requires Valid() && 0 <= cc < 16 && 0 <= r < 15
      modifies this`code, this`kind, this`since
      ensures Valid() && done == Short(o) && old(code) <= code && old(kind) <= kind && since == old(since) + |code| - old(|code|)
      ensures done ==> InPlace(code, old(|code|), |code|, cc, r, o) && forall j :: old(|kind|) <= j < |kind| ==> kind[j] == Plain
      ensures |code| == old(|code|) + ShortLength(o)
    {
      hide Valid, Encode, Ror;
      assert |kind| == |code| by { KindIs(); }
      if o < 256 {
        Gen(Encode(MoveImm(cc, MOV, 0, r, 0, o)));
        assert Rotated(o, 0, o) by { RorNone(o); }
        return true;
      }
      if o >= WORD - 256 {
        Gen(Encode(MoveImm(cc, MVN, 0, r, 0, WORD - 1 - o)));
        return true;
      }
      var u := ImmRot(o);
      if u != 0 {
        ghost var ro, imm :| 0 <= ro < 16 && Rotated(o, ro, imm) && u == ro * 256 + imm + 0x200_0000;
        Joined(MoveImm(cc, MOV, 0, r, 0, 0), ro, imm);
        Gen(Encode(MoveImm(cc, MOV, 0, r, 0, 0)) + u - 0x200_0000);
        return true;
      }
      if o < 0x10000 {
        Gen(Encode(MoveImm(cc, MOV, 0, r, 0, o % 256)));
        Gen(Encode(MoveImm(cc, ORR, r, r, 12, o / 256)));
        return true;
      }
      return false;
    }

    /** The waiting loads are in the code. */
    lemma Few()
      requires Valid()
      ensures forall k :: 0 <= k < |pool| ==> pool[k].at < |code|
    {
      hide Encode, AllResolved, Places;
      forall k | 0 <= k < |pool| ensures pool[k].at < |code| {
        assert pool[k].at == loads[|lits| + k].at;
      }
    }

    /** Without waiting loads, all have been filled in. */
    lemma Finished()
      requires Valid() && pool == [] && patching
      ensures AllResolved(code, loads, lits) && |lits| == |loads|
    {
      hide AllResolved, Places;
    }

    lemma KindIs()
      requires Valid()
      ensures |kind| == |code|
    {
    }

    /** The load of a new literal. */
    method Wait(cc: int, o: Word, r: int)
      requires Valid() && |pool| < NCON && 0 <= cc < 16 && 0 <= r < 15
      modifies this`code, this`pool, this`kind, this`loads, this`since
      ensures Valid() && since == old(since) + 1 && pool == old(pool) + [Const(o, old(|code|))]
      ensures old(code) <= code && old(kind) <= kind && |code| == old(|code|) + 1 == |kind|
      ensures loads == old(loads) + [Load(cc, r, o, old(|code|))]
    {
      ghost var w := Encode(LoadInstr(cc, r, 0));
      GenKeeps(code, kind, pool, loads, lits, w, Waiting);
      WaitKeeps(code + [w], kind + [Waiting], pool, loads, lits, Load(cc, r, o, |code|));
      hide Pending, AllResolved, Places, Encode;
      pool := pool + [Const(o, |code|)];
      loads := loads + [Load(cc, r, o, |code|)];
      code := code + [Encode(LoadInstr(cc, r, 0))];
      kind := kind + [Waiting];
      since := since + 1;
    }

    /** `ccon`: a constant into a register, built in place if that is allowed
        and possible, and loaded otherwise. */
    method Ccon(cc: int, o: Word, r: int, opt: bool)
      requires Valid() && 0 <= cc < 16 && 0 <= r < 15
      requires pool == [] || since <= 67
      modifies this`code, this`pool, this`kind, this`loads, this`lits, this`since
      ensures Valid() && Grown(old(code), old(kind), code, kind) && old(loads) <= loads
      ensures ConSite(code, kind, loads, old(|code|), |code|, cc, r, o)
      ensures if opt && Short(o) then pool == old(pool) && |code| == old(|code|) + ShortLength(o) && since <= old(since) + 2
              else since == 1 && if old(Due()) then |pool| == 1 && |code| == old(|code|) + 2 + old(|pool|)
                                 else pool == old(pool) + [Const(o, old(|code|))] && |code| == old(|code|) + 1
      ensures pool != [] && !(opt && Short(o)) ==> pool[|pool| - 1].at == |code| - 1
    {
      ghost var before, kinds := code, kind;
      if opt {
        var done := InPlaceCon(cc, o, r);
        if done { return; }
      }
      assert code == before && kind == kinds;
      hide Encode, Grown, Pending, AllResolved, Places;
      FlushChk();
      ghost var c, d := code, kind;
      Wait(cc, o, r);
      GrownPrefix(c, d, code, kind);
      GrownTrans(before, kinds, c, d, code, kind);
      SkipPrefix(c, d, code, kind, |before|, |c|);
      assert loads[|loads| - 1] == Load(cc, r, o, |code| - 1);
    }
  }

  /** There is a form without a literal. */
  ghost predicate Short(o: Word) {
    o < 0x10000 || o >= WORD - 256 || exists ro, imm :: 0 <= ro < 16 && Rotated(o, ro, imm)
  }

  ghost function ShortLength(o: Word): nat {
    if !Short(o) then 0
    else if o < 256 || o >= WORD - 256 || (exists ro, imm :: 0 <= ro < 16 && Rotated(o, ro, imm)) then 1
    else 2
  }

  /** The code from i to j is an emitted constant. */
  ghost predicate ConSite(code: seq<Word>, kind: seq<Kind>, loads: seq<Load>, i: nat, j: nat, cc: int, r: int, o: Word)
    requires 0 <= cc < 16 && 0 <= r < 15
  {
    && |kind| == |code| && i < j <= |code|
    && (|| (InPlace(code, i, j, cc, r, o) && forall k :: i <= k < j ==> kind[k] == Plain)
        || (SkipSite(code, kind, i, j - 1) && exists k :: 0 <= k < |loads| && loads[k] == Load(cc, r, o, j - 1)))
  }

  lemma RorNone(o: Word)
    ensures Ror(o, 0) == o
  {
  }

  lemma WaitKeeps(code: seq<Word>, kind: seq<Kind>, pool: seq<Const>, loads: seq<Load>, lits: seq<int>, l: Load)
    requires Pending(code, pool, loads, |lits|) && Places(kind, loads, lits) && |kind| == |code|
    requires l.Fits() && l.at == |code| - 1 && code[l.at] == Encode(LoadInstr(l.cc, l.r, 0)) && kind[l.at] == Waiting
    requires forall k :: 0 <= k < |loads| ==> loads[k].at < l.at
    ensures Pending(code, pool + [Const(l.o, l.at)], loads + [l], |lits|) && Places(kind, loads + [l], lits)
    ensures AllResolved(code, loads, lits) ==> AllResolved(code, loads + [l], lits)
  {
    hide Encode;
  }

  lemma GrownPrefix(code: seq<Word>, kind: seq<Kind>, code': seq<Word>, kind': seq<Kind>)
    requires |code| == |kind| && |code'| == |kind'| && code <= code' && kind <= kind'
    ensures Grown(code, kind, code', kind')
  {
  }

  lemma SkipPrefix(code: seq<Word>, kind: seq<Kind>, code': seq<Word>, kind': seq<Kind>, i: nat, j: nat)
    requires SkipSite(code, kind, i, j) && |code'| == |kind'| && code <= code' && kind <= kind'
    ensures SkipSite(code', kind', i, j)
  {
    hide Encode;
  }

  lemma GrownSelf(code: seq<Word>, kind: seq<Kind>)
    requires |code| == |kind|
    ensures Grown(code, kind, code, kind)
  {
  }

  lemma GrownTrans(a: seq<Word>, k: seq<Kind>, b: seq<Word>, l: seq<Kind>, c: seq<Word>, n: seq<Kind>)
    requires |a| == |k| && |b| == |l| && |c| == |n| && Grown(a, k, b, l) && Grown(b, l, c, n)
    ensures Grown(a, k, c, n)
  {
    forall j | 0 <= j < |k| ensures n[j] == k[j] && (k[j] != Waiting ==> c[j] == a[j]) {
      assert l[j] == k[j];
    }
  }

  /** A branch around literals, or nothing, that will not be changed. */
  ghost predicate SkipSite(code: seq<Word>, kind: seq<Kind>, i: nat, j: nat) {
    |kind| == |code| && Skips(code, i, j) && (i < j ==> kind[i] == Plain)
  }

  lemma BranchStays(before: seq<Word>, mid: seq<Word>, midKind: seq<Kind>, code: seq<Word>, kind: seq<Kind>, k: nat)
    requires 1 <= k <= NCON && mid == before + [Encode(Branch(AL, k - 1))]
    requires |mid| == |midKind| && |code| == |kind| == |mid| + k && midKind[|before|] == Plain
    requires Grown(mid, midKind, code, kind)
    ensures SkipSite(code, kind, |before|, |code|)
  {
    hide Encode;
    assert mid[|before|] == Encode(Branch(AL, k - 1));
  }

  /** The waiting loads are in order: each literal comes at least one word after
      the word behind its load, and not too far after it. */
  lemma Spread(loads: seq<Load>, n: nat, pool: seq<Const>, code: seq<Word>)
    requires Pending(code, pool, loads, n) && pool != []
    requires forall j, k :: 0 <= j < k < |loads| ==> loads[j].at < loads[k].at
    ensures forall i :: 0 <= i < |pool| ==> pool[0].at + i <= pool[i].at <= |code| - |pool| + i
  {
    hide Encode;
    forall i | 0 <= i < |pool|
      ensures pool[0].at + i <= pool[i].at <= |code| - |pool| + i
    {
      assert pool[i].at == loads[n + i].at && pool[0].at == loads[n].at;
      Distance(loads, n, n + i);
      Distance(loads, n + i, |loads| - 1);
    }
  }

  lemma {:induction false} Distance(loads: seq<Load>, j: nat, k: nat)
    requires j <= k < |loads|
    requires forall j, k :: 0 <= j < k < |loads| ==> loads[j].at < loads[k].at
    ensures loads[k].at - loads[j].at >= k - j
    decreases k - j
  {
    if j < k { Distance(loads, j + 1, k); }
  }

  /** One literal is laid down. */
  lemma FlushStep(code: seq<Word>, kind: seq<Kind>, pool: seq<Const>, loads: seq<Load>, lits: seq<int>, patching: bool)
    requires pool != [] && |kind| == |code| && Pending(code, pool, loads, |lits|) && Places(kind, loads, lits)
    requires patching ==> AllResolved(code, loads, lits)
    requires 0 <= |code| - pool[0].at - 2 < 1024
    ensures pool[0].at < |code|
    ensures patching ==> code[pool[0].at] + ((|code| - pool[0].at) * 4 - 8) % 4096 < WORD
    ensures var at, lits' := pool[0].at, lits + [|code|];
            var patched := if patching then code[at := code[at] + ((|code| - at) * 4 - 8) % 4096] else code;
            var code' := patched + [pool[0].o];
            && Pending(code', pool[1..], loads, |lits'|) && Places(kind + [Literal], loads, lits')
            && (patching ==> AllResolved(code', loads, lits'))
            && Grown(code, kind, code', kind + [Literal])
  {
    var n, at := |lits|, pool[0].at;
    var l := loads[n];
    var disp := (|code| - at) * 4 - 8;
    assert Encode(LoadInstr(l.cc, l.r, 0)) + disp == Encode(LoadInstr(l.cc, l.r, disp));
    hide Encode;
    assert pool[0] == Const(l.o, l.at);
  }

  lemma GenKeeps(code: seq<Word>, kind: seq<Kind>, pool: seq<Const>, loads: seq<Load>, lits: seq<int>, w: Word, k: Kind)
    requires Pending(code, pool, loads, |lits|) && Places(kind, loads, lits)
    ensures Pending(code + [w], pool, loads, |lits|) && Places(kind + [k], loads, lits)
    ensures AllResolved(code, loads, lits) ==> AllResolved(code + [w], loads, lits)
  {
    hide Encode;
  }
}