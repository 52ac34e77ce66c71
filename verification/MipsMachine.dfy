/**
 The MIPS instructions that the code generator (libinterp/comp-mips.c) emits for
 64-bit arithmetic, and what they do.  Loads are interlocked, as from MIPS II
 on; a branch takes effect after the instruction behind it.
 */
module MipsMachine {
  import opened Basics
  import opened Words

  const RO1 := 8
  const RO2 := 9
  const RO3 := 10
  const RI := 11
  const RJ := 12
  const RMP := 13
  const RFP := 14

  datatype Op3 = Addu | Subu | Slt | Sltu | Orr
  datatype Shift = Sll | Srl | Sra

  /** The operands are in the order of the macros: RRR(op, r1, r2, r3) computes
      r2 op r1 into r3. */
  datatype Instr =
    | Lw(c: int, r1: int, r2: int)
    | Sw(c: int, r1: int, r2: int)
    | Addiu(c: int, r1: int, r2: int)
    | Rrr(op: Op3, r1: int, r2: int, r3: int)
    | Srr(sh: Shift, c: int, r1: int, r2: int)
    | Beq(r1: int, r2: int, off: int)
    | Bne(r1: int, r2: int, off: int)
    | Delay

  /** The registers and the memory, by word addresses. */
  datatype Machine = Machine(reg: seq<Word>, mem: map<int, Word>)

  predicate Valid(m: Machine) {
    |m.reg| == 32 && m.reg[0] == 0
  }

  function Put(m: Machine, r: int, x: Word): Machine
    requires Valid(m) && 0 <= r < 32
  {
    if r == 0 then m else m.(reg := m.reg[r := x])
  }

  function Apply(op: Op3, a: Word, b: Word): Option<Word> {
    match op
    case Addu => Some((a + b) % WORD)
    case Subu => Some((a - b) % WORD)
    case Slt => Some(if Signed(a) < Signed(b) then 1 else 0)
    case Sltu => Some(if a < b then 1 else 0)
    case Orr => if Or(a, b) < WORD then Some(Or(a, b)) else None
  }

  /** Shifts; Sra keeps the sign. */
  function Shifted(sh: Shift, x: Word, c: int): Word
    requires 0 <= c < 32
  {
    PowPositive(c);
    match sh
    case Sll => (x * Pow2(c)) % WORD
    case Srl => Quotient(x, Pow2(c)); x / Pow2(c)
    case Sra => (Signed(x) / Pow2(c)) % WORD
  }

  lemma Between(x: int, q: int, r: int, p: int)
    requires 0 <= x && p > 0 && x == q * p + r && 0 <= r < p
    ensures 0 <= q <= x
  {
    Scale(q, p);
    assert q >= 1 ==> q * p >= q * 1;
  }

  lemma Quotient(x: int, p: int)
    requires 0 <= x && p > 0
    ensures 0 <= x / p <= x
  {
    var q, r := x / p, x % p;
    assert x == q * p + r;
    Between(x, q, r, p);
  }

  predicate Aligned(m: Machine, a: int) {
    a % 4 == 0 && a in m.mem
  }

  /** What an instruction other than a branch does. */
  function Exec(m: Machine, i: Instr): (r: Option<Machine>)
    requires Valid(m)
    ensures r.Some? ==> Valid(r.value)
  {
    match i
    case Lw(c, r1, r2) =>
      if !(0 <= r1 < 32 && 0 <= r2 < 32) then None
      else
        var a := (m.reg[r1] + c) % WORD;
        if Aligned(m, a) then Some(Put(m, r2, m.mem[a])) else None
    case Sw(c, r1, r2) =>
      if !(0 <= r1 < 32 && 0 <= r2 < 32) then None
      else
        var a := (m.reg[r1] + c) % WORD;
        if Aligned(m, a) then Some(m.(mem := m.mem[a := m.reg[r2]])) else None
    case Addiu(c, r1, r2) =>
      if !(0 <= r1 < 32 && 0 <= r2 < 32) then None else Some(Put(m, r2, (m.reg[r1] + c) % WORD))
    case Rrr(op, r1, r2, r3) =>
      if !(0 <= r1 < 32 && 0 <= r2 < 32 && 0 <= r3 < 32) then None
      else
        (match Apply(op, m.reg[r2], m.reg[r1])
         case None => None
         case Some(x) => Some(Put(m, r3, x)))
    case Srr(sh, c, r1, r2) =>
      if !(0 <= r1 < 32 && 0 <= r2 < 32 && 0 <= c < 32) then None else Some(Put(m, r2, Shifted(sh, m.reg[r1], c)))
    case Delay => Some(m)
    case _ => None
  }

  /** Straight code. */
  function Run(m: Machine, code: seq<Instr>): (r: Option<Machine>)
    requires Valid(m)
    ensures r.Some? ==> Valid(r.value)
  {
    if code == [] then Some(m)
    else
      match Run(m, code[..|code| - 1])
      case None => None
      case Some(m') => Exec(m', code[|code| - 1])
  }

  lemma {:induction false} RunJoin(m: Machine, c: seq<Instr>, d: seq<Instr>)
    requires Valid(m) && Run(m, c).Some?
    ensures Run(m, c + d) == Run(Run(m, c).value, d)
    decreases |d|
  {
    hide Exec;
    if d == [] {
      assert c + d == c;
    } else {
      assert (c + d)[..|c + d| - 1] == c + d[..|d| - 1];
      RunJoin(m, c, d[..|d| - 1]);
    }
  }

  /** One more instruction. */
  lemma RunOne(m: Machine, c: seq<Instr>, m': Machine, i: Instr, m'': Machine)
    requires Valid(m) && Run(m, c) == Some(m') && Exec(m', i) == Some(m'')
    ensures Run(m, c + [i]) == Some(m'')
  {
    assert (c + [i])[..|c|] == c;
    hide Exec;
  }

  // ------------------------------------------------------------------
  // Branches

  /** The machine with its program counter and the one after it, counted in
      instructions. */
  datatype Cpu = Cpu(m: Machine, pc: int, npc: int)

  function Step(code: seq<Instr>, u: Cpu): (r: Option<Cpu>)
    requires Valid(u.m)
    ensures r.Some? ==> Valid(r.value.m)
  {
    if !(0 <= u.pc < |code|) then None
    else
      match code[u.pc]
      case Beq(r1, r2, off) =>
        if !(0 <= r1 < 32 && 0 <= r2 < 32) then None
        else Some(Cpu(u.m, u.npc, if u.m.reg[r1] == u.m.reg[r2] then u.pc + 1 + off else u.npc + 1))
      case Bne(r1, r2, off) =>
        if !(0 <= r1 < 32 && 0 <= r2 < 32) then None
        else Some(Cpu(u.m, u.npc, if u.m.reg[r1] != u.m.reg[r2] then u.pc + 1 + off else u.npc + 1))
      case i =>
        match Exec(u.m, i)
        case None => None
        case Some(m') => Some(Cpu(m', u.npc, u.npc + 1))
  }

  function Steps(code: seq<Instr>, u: Cpu, k: nat): (r: Option<Cpu>)
    requires Valid(u.m)
    ensures r.Some? ==> Valid(r.value.m)
    decreases k
  {
    if k == 0 then Some(u)
    else
      match Step(code, u)
      case None => None
      case Some(u') => Steps(code, u', k - 1)
  }

  ghost predicate Reaches(code: seq<Instr>, u: Cpu, u': Cpu)
    requires Valid(u.m)
  {
    exists k: nat :: Steps(code, u, k) == Some(u')
  }

  lemma ReachesStep(code: seq<Instr>, u: Cpu, u': Cpu, u'': Cpu)
    requires Valid(u.m) && Valid(u'.m) && Step(code, u) == Some(u') && Reaches(code, u', u'')
    ensures Reaches(code, u, u'')
  {
    hide Step;
    var k: nat :| Steps(code, u', k) == Some(u'');
    assert Steps(code, u, k + 1) == Some(u'');
  }

  lemma ReachesSelf(code: seq<Instr>, u: Cpu)
    requires Valid(u.m)
    ensures Reaches(code, u, u)
  {
    assert Steps(code, u, 0) == Some(u);
  }
}
