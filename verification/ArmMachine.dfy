/**
 A small ARM: the instructions that the ARM code generator (libinterp/comp-arm.c)
 emits for constants, for memory operands and for the case statement, as words
 and as what they do.  Words are numbers below 2^32; the fields the macros of
 lines 128-198 join with `|` do not overlap, so that joining is adding.
 */
module ArmMachine {
  import opened Basics
  import opened Words

  // Data processing operations and conditions (lines 50-79).
  const SUB := 2
  const ADD := 4
  const CMP := 10
  const ORR := 12
  const MOV := 13
  const MVN := 15

  const LT := 11
  const GT := 12
  const LE := 13
  const AL := 14

  const R15 := 15

  /** The instructions; everything else is Other. */
  datatype Instr =
    | Dpi(cc: int, op: int, s: bool, rn: int, rd: int, ro: int, imm: int)
    | Dp(cc: int, op: int, s: bool, rn: int, rd: int, sh: int, rm: int)
    | Mem(cc: int, up: bool, load: bool, rn: int, rd: int, off: int)
    | MemReg(cc: int, load: bool, rn: int, rd: int, rm: int)
    | Branch(cc: int, off: int)
    | Other
  {
    predicate Fits() {
      match this
      case Dpi(cc, op, s, rn, rd, ro, imm) =>
        0 <= cc < 16 && 0 <= op < 16 && 0 <= rn < 16 && 0 <= rd < 16 && 0 <= ro < 16 && 0 <= imm < 256
      case Dp(cc, op, s, rn, rd, sh, rm) =>
        0 <= cc < 16 && 0 <= op < 16 && 0 <= rn < 16 && 0 <= rd < 16 && 0 <= sh < 256 && sh % 2 == 0 && 0 <= rm < 16
      case Mem(cc, up, load, rn, rd, off) =>
        0 <= cc < 16 && 0 <= rn < 16 && 0 <= rd < 16 && 0 <= off < 4096
      case MemReg(cc, load, rn, rd, rm) =>
        0 <= cc < 16 && 0 <= rn < 16 && 0 <= rd < 16 && 0 <= rm < 16
      case Branch(cc, off) => 0 <= cc < 16 && 0 <= off < 0x100_0000
      case Other => false
    }
  }

  function Bit(b: bool): int { if b then 1 else 0 }

  /** The words of the macros DPI, DP, LDW and STW, LDRW and STRW, and BRA. */
  function Encode(i: Instr): (w: Word)
    requires i.Fits()
  {
    match i
    case Dpi(cc, op, s, rn, rd, ro, imm) =>
      ((((((cc * 8 + 1) * 16 + op) * 2 + Bit(s)) * 16 + rn) * 16 + rd) * 16 + ro) * 256 + imm
    case Dp(cc, op, s, rn, rd, sh, rm) =>
      ((((((cc * 8 + 0) * 16 + op) * 2 + Bit(s)) * 16 + rn) * 16 + rd) * 256 + sh) * 16 + rm
    case Mem(cc, up, load, rn, rd, off) =>
      (((((cc * 8 + 2) * 32 + 16 + 8 * Bit(up) + Bit(load)) * 16 + rn) * 16 + rd) * 4096) + off
    case MemReg(cc, load, rn, rd, rm) =>
      (((((cc * 8 + 3) * 32 + 24 + Bit(load)) * 16 + rn) * 16 + rd) * 4096) + rm
    case Branch(cc, off) => ((cc * 8 + 5) * 2) * 0x100_0000 + off
  }

  function Decode(w: Word): (i: Instr) {
    var hi := w / 0x200_0000;
    var cc, class_ := hi / 8, hi % 8;
    var a := w / 4096;
    var rd, b := a % 16, a / 16;
    var rn, f := b % 16, (b / 16) % 32;
    if class_ == 1 then
      Dpi(cc, f / 2, f % 2 == 1, rn, rd, (w / 256) % 16, w % 256)
    else if class_ == 0 && (w / 16) % 2 == 0 then
      Dp(cc, f / 2, f % 2 == 1, rn, rd, (w / 16) % 256, w % 16)
    else if class_ == 2 && f / 16 == 1 && (f / 2) % 4 == 0 then
      Mem(cc, (f / 8) % 2 == 1, f % 2 == 1, rn, rd, w % 4096)
    else if class_ == 3 && f / 2 == 12 && (w / 16) % 256 == 0 then
      MemReg(cc, f % 2 == 1, rn, rd, w % 16)
    else if class_ == 5 && (w / 0x100_0000) % 2 == 0 then
      Branch(cc, w % 0x100_0000)
    else Other
  }

  /** The fields of a word with two registers in the middle. */
  lemma Split(cc: int, class_: int, f: int, rn: int, rd: int, lo: int, w: int)
    requires 0 <= class_ < 8 && 0 <= f < 32 && 0 <= rn < 16 && 0 <= rd < 16 && 0 <= lo < 4096
    requires w == ((((cc * 8 + class_) * 32 + f) * 16 + rn) * 16 + rd) * 4096 + lo
    ensures w % 4096 == lo && w / 4096 == (((cc * 8 + class_) * 32 + f) * 16 + rn) * 16 + rd
    ensures (w / 4096) % 16 == rd && w / 4096 / 16 == ((cc * 8 + class_) * 32 + f) * 16 + rn
    ensures (w / 4096 / 16) % 16 == rn && w / 4096 / 16 / 16 == (cc * 8 + class_) * 32 + f
    ensures (w / 4096 / 16 / 16) % 32 == f
    ensures w / 0x200_0000 == cc * 8 + class_ && w / 0x200_0000 / 8 == cc && (w / 0x200_0000) % 8 == class_
  {
    var h := cc * 8 + class_;
    var x := h * 32 + f;
    var y := x * 16 + rn;
    DivMod(cc, 8, class_);
    DivMod(h, 32, f);
    DivMod(x, 16, rn);
    DivMod(y, 16, rd);
    DivMod(y * 16 + rd, 4096, lo);
    DivMod(h, 0x200_0000, ((f * 16 + rn) * 16 + rd) * 4096 + lo);
  }

  /** The low twelve bits. */
  lemma Low(w: int, hi: int, lo: int)
    requires w == hi * 4096 + lo && 0 <= lo < 4096
    ensures w % 256 == lo % 256 && (w / 256) % 16 == lo / 256
    ensures w % 16 == lo % 16 && (w / 16) % 256 == lo / 16 && (w / 16) % 2 == (lo / 16) % 2
  {
    var a, b := lo / 256, lo / 16;
    DivMod(hi * 16 + a, 256, lo % 256);
    DivMod(hi, 16, a);
    DivMod(hi * 256 + b, 16, lo % 16);
    DivMod(hi, 256, b);
    DivMod(hi * 128 + b / 2, 2, b % 2);
  }

  lemma DecodeDpi(i: Instr)
    requires i.Fits() && i.Dpi?
    ensures Decode(Encode(i)) == i
  {
    hide Encode;
    var w, f, lo := Encode(i), i.op * 2 + Bit(i.s), i.ro * 256 + i.imm;
    DpiWord(i);
    Split(i.cc, 1, f, i.rn, i.rd, lo, w);
    Low(w, w / 4096, lo);
  }

  lemma DpiWord(i: Instr)
    requires i.Fits() && i.Dpi?
    ensures Encode(i) == ((((i.cc * 8 + 1) * 32 + (i.op * 2 + Bit(i.s))) * 16 + i.rn) * 16 + i.rd) * 4096 + (i.ro * 256 + i.imm)
  {
  }

  lemma DecodeDp(i: Instr)
    requires i.Fits() && i.Dp?
    ensures Decode(Encode(i)) == i
  {
    var w, f, lo := Encode(i), i.op * 2 + Bit(i.s), i.sh * 16 + i.rm;
    Split(i.cc, 0, f, i.rn, i.rd, lo, w);
    Low(w, w / 4096, lo);
  }

  lemma DecodeMem(i: Instr)
    requires i.Fits() && i.Mem?
    ensures Decode(Encode(i)) == i
  {
    Split(i.cc, 2, 16 + 8 * Bit(i.up) + Bit(i.load), i.rn, i.rd, i.off, Encode(i));
  }

  lemma DecodeMemReg(i: Instr)
    requires i.Fits() && i.MemReg?
    ensures Decode(Encode(i)) == i
  {
    var w := Encode(i);
    Split(i.cc, 3, 24 + Bit(i.load), i.rn, i.rd, i.rm, w);
    Low(w, w / 4096, i.rm);
  }

  lemma DecodeBranch(i: Instr)
    requires i.Fits() && i.Branch?
    ensures Decode(Encode(i)) == i
  {
    var w := Encode(i);
    assert w / 0x100_0000 == (i.cc * 8 + 5) * 2 && w % 0x100_0000 == i.off;
    assert w / 0x200_0000 == i.cc * 8 + 5;
  }

  /** Whatever the macros emit is read back as it was meant. */
  lemma DecodeEncode(i: Instr)
    requires i.Fits()
    ensures Decode(Encode(i)) == i
  {
    hide Decode, Encode;
    match i
    case Dpi(_, _, _, _, _, _, _) => DecodeDpi(i);
    case Dp(_, _, _, _, _, _, _) => DecodeDp(i);
    case Mem(_, _, _, _, _, _) => DecodeMem(i);
    case MemReg(_, _, _, _, _) => DecodeMemReg(i);
    case Branch(_, _) => DecodeBranch(i);
  }

  /** Some words as the machine's manual has them: mov r1, #5; mvn r1, #0;
      add r3, r4, #1; orr r1, r1, #0xff00; cmp r0, r1; ldr r1, [r2, #4];
      str r1, [r2, #-4]; ldr r1, [r2, r3]; b to itself; blt to the next word but one. */
  lemma Samples()
    ensures Encode(Dpi(AL, MOV, false, 0, 1, 0, 5)) == 0xE3A0_1005
    ensures Encode(Dpi(AL, MVN, false, 0, 1, 0, 0)) == 0xE3E0_1000
    ensures Encode(Dpi(AL, ADD, false, 4, 3, 0, 1)) == 0xE284_3001
    ensures Encode(Dpi(AL, ORR, false, 1, 1, 12, 0xFF)) == 0xE381_1CFF
    ensures Encode(Dp(AL, CMP, true, 0, 0, 0, 1)) == 0xE150_0001
    ensures Encode(Mem(AL, true, true, 2, 1, 4)) == 0xE592_1004
    ensures Encode(Mem(AL, false, false, 2, 1, 4)) == 0xE502_1004
    ensures Encode(MemReg(AL, true, 2, 1, 3)) == 0xE792_1003
    ensures Encode(Branch(AL, 0xFF_FFFE)) == 0xEAFF_FFFE
    ensures Encode(Branch(LT, 0)) == 0xBA00_0000
  {
  }

  // ------------------------------------------------------------------
  // What the instructions do

  /** The registers R0 to R14, the flags, the program counter and the memory, by
      word addresses. */
  datatype Machine = Machine(reg: seq<Word>, n: bool, z: bool, c: bool, v: bool, pc: int, mem: map<int, Word>)

  predicate Valid(m: Machine) {
    |m.reg| == 15
  }

  predicate Cond(cc: int, m: Machine) {
    match cc
    case 0 => m.z
    case 1 => !m.z
    case 2 => m.c
    case 3 => !m.c
    case 4 => m.n
    case 5 => !m.n
    case 6 => m.v
    case 7 => !m.v
    case 8 => m.c && !m.z
    case 9 => !m.c || m.z
    case 10 => m.n == m.v
    case 11 => m.n != m.v
    case 12 => !m.z && m.n == m.v
    case 13 => m.z || m.n != m.v
    case 14 => true
    case _ => false
  }

  /** The program counter reads two instructions ahead. */
  function Reg(m: Machine, r: int): int
    requires Valid(m) && 0 <= r < 16
  {
    if r == 15 then m.pc + 8 else m.reg[r]
  }

  function Ror2(v: Word): (r: Word) {
    v / 4 + (v % 4) * 0x4000_0000
  }

  function Ror(v: Word, k: nat): Word {
    if k == 0 then v else Ror2(Ror(v, k - 1))
  }

  /** The second operand, a register shifted by a constant: LSL and LSR. */
  function Shifted(x: int, sh: int): Option<int> {
    if sh % 8 == 0 then Some((x * Pow2(sh / 8)) % WORD)
    else if sh == 10 then Some(x / 2)
    else None
  }

  function SubFlags(m: Machine, a: int, b: int): Machine {
    var d := (a - b) % WORD;
    m.(n := d >= HALF, z := d == 0, c := a >= b, v := Signed(a) - Signed(b) != Signed(d))
  }

  /** The result of an operation on two words: SUB, ADD, CMP, ORR, MOV and MVN by
      their numbers in the machine. */
  function Alu(op: int, a: Word, b: Word): Option<Word> {
    match op
    case 2 => Some((a - b) % WORD)
    case 4 => Some((a + b) % WORD)
    case 10 => Some((a - b) % WORD)
    case 12 => if Or(a, b) < WORD then Some(Or(a, b)) else None
    case 13 => Some(b)
    case 15 => Some(WORD - 1 - b)
    case _ => None
  }

  /** Write a register; writing R15 jumps. */
  function Put(m: Machine, r: int, x: Word): Machine
    requires Valid(m) && 0 <= r < 16
  {
    if r == 15 then m.(pc := x) else m.(reg := m.reg[r := x], pc := m.pc + 4)
  }

  function Operate(m: Machine, op: int, s: bool, rd: int, a: Word, b: Word): Option<Machine>
    requires Valid(m) && 0 <= rd < 16
  {
    if s && op != 2 && op != 10 then None
    else
      match Alu(op, a, b)
      case None => None
      case Some(x) =>
        var f := if s then SubFlags(m, a, b) else m;
        if op == CMP then (if s then Some(f.(pc := m.pc + 4)) else None) else Some(Put(f, rd, x))
  }

  function Access(m: Machine, load: bool, rd: int, at: int): Option<Machine>
    requires Valid(m) && 0 <= rd < 16
  {
    if at % 4 != 0 || at !in m.mem then None
    else if load then Some(Put(m, rd, m.mem[at]))
    else if rd == 15 then None
    else Some(m.(mem := m.mem[at := m.reg[rd]], pc := m.pc + 4))
  }

  function Skip(m: Machine): Machine {
    m.(pc := m.pc + 4)
  }

  function Execute(m: Machine, i: Instr): (r: Option<Machine>)
    requires Valid(m)
    ensures r.Some? ==> Valid(r.value)
  {
    if !i.Fits() then None
    else if !Cond(i.cc, m) then Some(Skip(m))
    else
      match i
      case Dpi(cc, op, s, rn, rd, ro, imm) =>
        var a := Reg(m, rn);
        if 0 <= a < WORD then Operate(m, op, s, rd, a, Ror(imm, ro)) else None
      case Dp(cc, op, s, rn, rd, sh, rm) =>
        var a, b := Reg(m, rn), Shifted(Reg(m, rm), sh);
        if 0 <= a < WORD && b.Some? && 0 <= b.value < WORD then Operate(m, op, s, rd, a, b.value) else None
      case Mem(cc, up, load, rn, rd, off) =>
        Access(m, load, rd, (Reg(m, rn) + if up then off else 0 - off) % WORD)
      case MemReg(cc, load, rn, rd, rm) =>
        Access(m, load, rd, (Reg(m, rn) + Reg(m, rm)) % WORD)
      case Branch(cc, off) =>
        Some(m.(pc := m.pc + 8 + 4 * (if off < 0x80_0000 then off else off - 0x100_0000)))
  }

  function Step(m: Machine): (r: Option<Machine>)
    requires Valid(m)
    ensures r.Some? ==> Valid(r.value)
  {
    if m.pc in m.mem && m.pc % 4 == 0 then Execute(m, Decode(m.mem[m.pc])) else None
  }

  function Run(m: Machine, k: nat): (r: Option<Machine>)
    requires Valid(m)
    ensures r.Some? ==> Valid(r.value)
    decreases k
  {
    if k == 0 then Some(m)
    else
      match Step(m)
      case None => None
      case Some(m') => Run(m', k - 1)
  }

  lemma {:induction false} RunMore(m: Machine, j: nat, k: nat)
    requires Valid(m) && Run(m, j).Some?
    ensures Run(m, j + k) == Run(Run(m, j).value, k)
    decreases j
  {
    hide Step;
    if j > 0 { RunMore(Step(m).value, j - 1, k); }
  }

  /** The word at the program counter is that instruction. */
  predicate At(m: Machine, i: Instr) {
    i.Fits() && m.pc % 4 == 0 && m.pc in m.mem && m.mem[m.pc] == Encode(i)
  }

  lemma StepAt(m: Machine, i: Instr)
    requires Valid(m) && At(m, i)
    ensures Step(m) == Execute(m, i)
  {
    DecodeEncode(i);
    hide Decode, Encode, Execute;
  }
}
