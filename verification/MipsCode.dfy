/**
 The code emitted for 64-bit operations (libinterp/comp-mips.c): addition and
 subtraction, and shifts by a constant.
 */
module MipsCode {
  import opened Basics
  import opened Words
  import opened MipsMachine
  import opened MipsLong

  /** An operand: in the frame or the module data, or behind a pointer there. */
  datatype Adr = Direct(frame: bool, c: int) | Indirect(frame: bool, f: int, s: int)

  function Base(a: Adr): (r: int) { if a.frame then RFP else RMP }

  /** `opx` for the address of an operand. */
  method Lea(a: Adr, reg: int) returns (code: seq<Instr>)
    ensures code == LeaCode(a, reg)
  {
    match a
    case Direct(_, c) => code := [Addiu(c, Base(a), reg)];
    case Indirect(_, f, s) =>
      code := [Lw(f, Base(a), reg)];
      if s != 0 { code := code + [Delay] + [Addiu(s, reg, reg)]; }
  }

  function LeaCode(a: Adr, reg: int): seq<Instr> {
    match a
    case Direct(_, c) => [Addiu(c, Base(a), reg)]
    case Indirect(_, f, s) => IndCode(f, s, Base(a), reg)
  }

  function IndCode(f: int, s: int, p: int, reg: int): seq<Instr> {
    if s != 0 then [Lw(f, p, reg)] + [Delay] + [Addiu(s, reg, reg)] else [Lw(f, p, reg)]
  }

  /** The place of the operand, or of the pointer to it. */
  function Start(m: Machine, a: Adr): Word
    requires Valid(m)
  {
    (m.reg[Base(a)] + if a.Direct? then a.c else a.f) % WORD
  }

  /** The address of an operand, when the pointer to it can be read. */
  function AddrOf(m: Machine, a: Adr): Word
    requires Valid(m) && Readable(m, a)
  {
    if a.Direct? then Start(m, a) else (m.mem[Start(m, a)] + a.s) % WORD
  }

  predicate Readable(m: Machine, a: Adr)
    requires Valid(m)
  {
    a.Direct? || Aligned(m, Start(m, a))
  }

  /** Nothing has changed but the working registers Ro1 to Rj. */
  ghost predicate Frame(m: Machine, m': Machine) {
    Valid(m) && Valid(m') && forall r :: 0 <= r < 32 && !(RO1 <= r <= RJ) ==> m'.reg[r] == m.reg[r]
  }

  predicate Working(r: int) { RO1 <= r <= RJ }

  // ------------------------------------------------------------------
  // Single instructions

  lemma LwDoes(m: Machine, c: int, r1: int, r2: int)
    requires Valid(m) && 0 <= r1 < 32 && Working(r2) && Aligned(m, (m.reg[r1] + c) % WORD)
    ensures Exec(m, Lw(c, r1, r2)) == Some(m.(reg := m.reg[r2 := m.mem[(m.reg[r1] + c) % WORD]]))
  {
  }

  lemma SwDoes(m: Machine, c: int, r1: int, r2: int)
    requires Valid(m) && 0 <= r1 < 32 && 0 <= r2 < 32 && Aligned(m, (m.reg[r1] + c) % WORD)
    ensures Exec(m, Sw(c, r1, r2)) == Some(m.(mem := m.mem[(m.reg[r1] + c) % WORD := m.reg[r2]]))
  {
  }

  lemma AddiuDoes(m: Machine, c: int, r1: int, r2: int)
    requires Valid(m) && 0 <= r1 < 32 && Working(r2)
    ensures Exec(m, Addiu(c, r1, r2)) == Some(m.(reg := m.reg[r2 := (m.reg[r1] + c) % WORD]))
  {
  }

  lemma RrrDoes(m: Machine, op: Op3, r1: int, r2: int, r3: int, x: Word)
    requires Valid(m) && 0 <= r1 < 32 && 0 <= r2 < 32 && Working(r3) && Apply(op, m.reg[r2], m.reg[r1]) == Some(x)
    ensures Exec(m, Rrr(op, r1, r2, r3)) == Some(m.(reg := m.reg[r3 := x]))
  {
    hide Apply;
  }

  lemma SrrDoes(m: Machine, sh: Shift, c: int, r1: int, r2: int)
    requires Valid(m) && 0 <= r1 < 32 && Working(r2) && 0 <= c < 32
    ensures Exec(m, Srr(sh, c, r1, r2)) == Some(m.(reg := m.reg[r2 := Shifted(sh, m.reg[r1], c)]))
  {
    hide Shifted;
  }

  lemma DelayDoes(m: Machine)
    requires Valid(m)
    ensures Exec(m, Delay) == Some(m)
  {
  }

  /** The emitted address code computes the address. */
  lemma LeaMeans(m: Machine, a: Adr, r: int)
    requires Valid(m) && Readable(m, a) && Working(r)
    ensures Run(m, LeaCode(a, r)) == Some(m.(reg := m.reg[r := AddrOf(m, a)]))
  {
    hide Exec, Run, IndCode;
    if a.Direct? {
      RunSingle(m, Addiu(a.c, Base(a), r));
      AddiuDoes(m, a.c, Base(a), r);
    } else {
      LeaInd(m, a.f, a.s, Base(a), r, Start(m, a), AddrOf(m, a));
    }
  }

  lemma RunSingle(m: Machine, i: Instr)
    requires Valid(m)
    ensures Run(m, [i]) == Exec(m, i)
  {
    assert [i][..0] == [];
    hide Exec;
  }

  lemma LeaInd(m: Machine, f: int, s: int, p: int, r: int, at: int, x: Word)
    requires Valid(m) && (p == RFP || p == RMP) && at == (m.reg[p] + f) % WORD && Aligned(m, at) && Working(r)
    requires x == (m.mem[at] + s) % WORD
    ensures Run(m, IndCode(f, s, p, r)) == Some(m.(reg := m.reg[r := x]))
  {
    var w := m.mem[at];
    var m1 := m.(reg := m.reg[r := w]);
    assert m1.reg[r := x] == m.reg[r := x];
    hide Exec, Run;
    RunSingle(m, Lw(f, p, r));
    LwDoes(m, f, p, r);
    if s == 0 {
      WordIs(w, 0, w);
    } else {
      LeaRest(m1, [Lw(f, p, r)], m, s, r);
    }
  }

  lemma LeaRest(m: Machine, c: seq<Instr>, m0: Machine, s: int, r: int)
    requires Valid(m0) && Valid(m) && Run(m0, c) == Some(m) && Working(r)
    ensures Run(m0, c + [Delay] + [Addiu(s, r, r)]) == Some(m.(reg := m.reg[r := (m.reg[r] + s) % WORD]))
  {
    hide Exec, Run;
    DelayDoes(m);
    RunOne(m0, c, m, Delay, m);
    AddiuDoes(m, s, r, r);
    RunOne(m0, c + [Delay], m, Addiu(s, r, r), m.(reg := m.reg[r := (m.reg[r] + s) % WORD]));
  }

  // ------------------------------------------------------------------
  // Long words in memory

  function At(a: int, off: int): Word { (a + off) % WORD }

  /** Both halves of the long word at a can be accessed; the high half is bhi
      bytes behind a (the constant Bhi, which is 0 or 4), the low half 4 - bhi. */
  predicate LongHere(m: Machine, a: int, bhi: int) {
    (bhi == 0 || bhi == 4) && Aligned(m, At(a, bhi)) && Aligned(m, At(a, 4 - bhi))
  }

  function Hi(m: Machine, a: int, bhi: int): Word
    requires LongHere(m, a, bhi)
  {
    m.mem[At(a, bhi)]
  }

  function Lo(m: Machine, a: int, bhi: int): Word
    requires LongHere(m, a, bhi)
  {
    m.mem[At(a, 4 - bhi)]
  }

  /** The operand can be reached. */
  predicate Usable(m: Machine, a: Adr, bhi: int)
    requires Valid(m)
  {
    Readable(m, a) && LongHere(m, AddrOf(m, a), bhi)
  }

  function LongOf(m: Machine, a: Adr, bhi: int): int
    requires Valid(m) && Usable(m, a, bhi)
  {
    Long(Hi(m, AddrOf(m, a), bhi), Lo(m, AddrOf(m, a), bhi))
  }

  function SignedLongOf(m: Machine, a: Adr, bhi: int): int
    requires Valid(m) && Usable(m, a, bhi)
  {
    SignedLong(Hi(m, AddrOf(m, a), bhi), Lo(m, AddrOf(m, a), bhi))
  }

  /** The code stores a long word at a, and changes nothing else but working
      registers. */
  ghost predicate Stores(code: seq<Instr>, m: Machine, a: int, bhi: int, hi: Word, lo: Word)
    requires Valid(m)
  {
    var r := Run(m, code);
    r.Some? && Frame(m, r.value) && r.value.mem == m.mem[At(a, bhi) := hi][At(a, 4 - bhi) := lo]
  }

  /** The code stores x, a number below 2^64. */
  ghost predicate StoresLong(code: seq<Instr>, m: Machine, a: int, bhi: int, x: int)
    requires Valid(m)
  {
    exists hi, lo :: Long(hi, lo) == x && Stores(code, m, a, bhi, hi, lo)
  }

  /** The code stores x, a signed number. */
  ghost predicate StoresSigned(code: seq<Instr>, m: Machine, a: int, bhi: int, x: int)
    requires Valid(m)
  {
    exists hi, lo :: SignedLong(hi, lo) == x && Stores(code, m, a, bhi, hi, lo)
  }

  /** From m, the code has come to m', with the memory as it was. */
  ghost predicate Got(m: Machine, code: seq<Instr>, m': Machine) {
    Valid(m) && Run(m, code) == Some(m') && Frame(m, m') && m'.mem == m.mem
  }

  lemma GotNone(m: Machine)
    requires Valid(m)
    ensures Got(m, [], m)
  {
  }

  /** One more instruction that sets a working register. */
  lemma GotMore(m: Machine, code: seq<Instr>, m1: Machine, i: Instr, r: int, x: Word)
    requires Got(m, code, m1) && Valid(m1) && Working(r) && Exec(m1, i) == Some(m1.(reg := m1.reg[r := x]))
    ensures Valid(m1.(reg := m1.reg[r := x])) && Got(m, code + [i], m1.(reg := m1.reg[r := x]))
  {
    var m2 := m1.(reg := m1.reg[r := x]);
    RunOne(m, code, m1, i, m2);
    hide Exec, Run;
  }

  lemma GotLea(m: Machine, code: seq<Instr>, m1: Machine, a: Adr, r: int) returns (m2: Machine)
    requires Got(m, code, m1) && Valid(m1) && Working(r) && Readable(m, a)
    ensures m2 == m1.(reg := m1.reg[r := AddrOf(m, a)]) && Valid(m2) && Got(m, code + LeaCode(a, r), m2)
  {
    assert m1.reg[Base(a)] == m.reg[Base(a)];
    m2 := m1.(reg := m1.reg[r := AddrOf(m, a)]);
    assert AddrOf(m1, a) == AddrOf(m, a);
    hide Exec, Run, AddrOf;
    LeaMeans(m1, a, r);
    RunJoin(m, code, LeaCode(a, r));
  }

  lemma GotLoad(m: Machine, code: seq<Instr>, m1: Machine, off: int, a: int, r1: int, r2: int) returns (m2: Machine)
    requires Got(m, code, m1) && Valid(m1) && Working(r1) && Working(r2) && m1.reg[r1] == a && Aligned(m, At(a, off))
    ensures m2 == m1.(reg := m1.reg[r2 := m.mem[At(a, off)]]) && Valid(m2) && Got(m, code + [Lw(off, r1, r2)], m2)
  {
    m2 := m1.(reg := m1.reg[r2 := m.mem[At(a, off)]]);
    hide Exec, Run, Frame;
    LwDoes(m1, off, r1, r2);
    GotMore(m, code, m1, Lw(off, r1, r2), r2, m.mem[At(a, off)]);
  }

  lemma GotRrr(m: Machine, code: seq<Instr>, m1: Machine, op: Op3, r1: int, r2: int, r3: int, x: Word) returns (m2: Machine)
    requires Got(m, code, m1) && Valid(m1) && Working(r1) && Working(r2) && Working(r3)
    requires Apply(op, m1.reg[r2], m1.reg[r1]) == Some(x)
    ensures m2 == m1.(reg := m1.reg[r3 := x]) && Valid(m2) && Got(m, code + [Rrr(op, r1, r2, r3)], m2)
  {
    m2 := m1.(reg := m1.reg[r3 := x]);
    hide Exec, Run, Frame, Apply;
    RrrDoes(m1, op, r1, r2, r3, x);
    GotMore(m, code, m1, Rrr(op, r1, r2, r3), r3, x);
  }

  lemma GotSrr(m: Machine, code: seq<Instr>, m1: Machine, sh: Shift, c: int, r1: int, r2: int) returns (m2: Machine)
    requires Got(m, code, m1) && Valid(m1) && Working(r1) && Working(r2) && 0 <= c < 32
    ensures m2 == m1.(reg := m1.reg[r2 := Shifted(sh, m1.reg[r1], c)]) && Valid(m2)
    ensures Got(m, code + [Srr(sh, c, r1, r2)], m2)
  {
    m2 := m1.(reg := m1.reg[r2 := Shifted(sh, m1.reg[r1], c)]);
    hide Exec, Run, Frame, Shifted;
    SrrDoes(m1, sh, c, r1, r2);
    GotMore(m, code, m1, Srr(sh, c, r1, r2), r2, Shifted(sh, m1.reg[r1], c));
  }

  lemma StoreTwo(m: Machine, code: seq<Instr>, m1: Machine, a: int, c1: int, r1: int, c2: int, r2: int)
    requires Valid(m) && Valid(m1) && Run(m, code) == Some(m1) && m1.reg[RO3] == a && 0 <= r1 < 32 && 0 <= r2 < 32
    requires Aligned(m1, At(a, c1)) && Aligned(m1, At(a, c2))
    ensures Run(m, code + [Sw(c1, RO3, r1)] + [Sw(c2, RO3, r2)]) ==
            Some(m1.(mem := m1.mem[At(a, c1) := m1.reg[r1]][At(a, c2) := m1.reg[r2]]))
  {
    var x := m1.(mem := m1.mem[At(a, c1) := m1.reg[r1]]);
    SwDoes(m1, c1, RO3, r1);
    SwDoes(x, c2, RO3, r2);
    hide Exec, Run;
    RunOne(m, code, m1, Sw(c1, RO3, r1), x);
    RunOne(m, code + [Sw(c1, RO3, r1)], x, Sw(c2, RO3, r2), m1.(mem := m1.mem[At(a, c1) := m1.reg[r1]][At(a, c2) := m1.reg[r2]]));
  }

  /** The two stores at the end, in either order. */
  lemma StoreBoth(m: Machine, code: seq<Instr>, m1: Machine, a: int, bhi: int, rh: int, rl: int)
    requires Got(m, code, m1) && Valid(m1) && m1.reg[RO3] == a && LongHere(m, a, bhi)
    requires (rh == 0 || Working(rh)) && (rl == 0 || Working(rl))
    ensures Stores(code + [Sw(bhi, RO3, rh)] + [Sw(4 - bhi, RO3, rl)], m, a, bhi, m1.reg[rh], m1.reg[rl])
    ensures Stores(code + [Sw(4 - bhi, RO3, rl)] + [Sw(bhi, RO3, rh)], m, a, bhi, m1.reg[rh], m1.reg[rl])
  {
    var h, l := At(a, bhi), At(a, 4 - bhi);
    Apart(a, bhi);
    MapSwap(m.mem, h, l, m1.reg[rh], m1.reg[rl]);
    StoreTwo(m, code, m1, a, bhi, rh, 4 - bhi, rl);
    StoreTwo(m, code, m1, a, 4 - bhi, rl, bhi, rh);
    hide Exec, Run, At;
  }

  lemma MapSwap(s: map<int, Word>, h: int, l: int, x: Word, y: Word)
    requires h != l
    ensures s[l := y][h := x] == s[h := x][l := y]
  {
  }

  lemma Apart(a: int, bhi: int)
    requires bhi == 0 || bhi == 4
    ensures At(a, bhi) != At(a, 4 - bhi)
  {
    var x := a % WORD;
    var q := a / WORD;
    if x + 4 < WORD {
      WordIs(a + 4, q, x + 4);
    } else {
      WordIs(a + 4, q + 1, x + 4 - WORD);
    }
  }

  // ------------------------------------------------------------------
  // Addition and subtraction (lines 1065-1107, in comp)

  /** The middle operand, or the destination if there is none. */
  function Second(mid: Option<Adr>, dst: Adr): Adr {
    if mid.Some? then mid.value else dst
  }

  function LoadsCode(src: Adr, second: Adr, bhi: int): seq<Instr> {
    LeaCode(src, RO1) + LeaCode(second, RO3)
    + [Lw(4 - bhi, RO1, RJ)] + [Lw(4 - bhi, RO3, RO2)] + [Lw(bhi, RO1, RI)] + [Lw(bhi, RO3, RO1)]
  }

  function AddCode(c: seq<Instr>, sub: bool): seq<Instr> {
    if sub then
      c + [Rrr(Subu, RI, RO1, RO1)] + [Rrr(Sltu, RJ, RO2, RI)] + [Rrr(Subu, RJ, RO2, RO2)] + [Rrr(Subu, RI, RO1, RO1)]
    else
      c + [Rrr(Addu, RI, RO1, RO1)] + [Rrr(Addu, RJ, RO2, RO2)] + [Rrr(Sltu, RJ, RO2, RI)] + [Rrr(Addu, RI, RO1, RO1)]
  }

  function ThirdCode(c: seq<Instr>, mid: Option<Adr>, dst: Adr): seq<Instr> {
    if mid.Some? then c + LeaCode(dst, RO3) else c
  }

  lemma LoadsGot(m: Machine, src: Adr, second: Adr, bhi: int) returns (m': Machine)
    requires Valid(m) && Usable(m, src, bhi) && Usable(m, second, bhi)
    ensures Valid(m') && Got(m, LoadsCode(src, second, bhi), m') && m'.reg[RO3] == AddrOf(m, second)
    ensures var a, b := AddrOf(m, src), AddrOf(m, second);
            m'.reg[RI] == Hi(m, a, bhi) && m'.reg[RJ] == Lo(m, a, bhi) && m'.reg[RO1] == Hi(m, b, bhi)
                && m'.reg[RO2] == Lo(m, b, bhi)
  {
    GotNone(m);
    var a, b := AddrOf(m, src), AddrOf(m, second);
    assert LongHere(m, a, bhi) && LongHere(m, b, bhi);
    hide Got, LeaCode, At, Aligned, AddrOf, Frame;
    var c := LeaCode(src, RO1);
    assert [] + c == c;
    var m1 := GotLea(m, [], m, src, RO1);
    var m2 := GotLea(m, c, m1, second, RO3);
    c := c + LeaCode(second, RO3);
    var m3 := GotLoad(m, c, m2, 4 - bhi, a, RO1, RJ);
    c := c + [Lw(4 - bhi, RO1, RJ)];
    var m4 := GotLoad(m, c, m3, 4 - bhi, b, RO3, RO2);
    c := c + [Lw(4 - bhi, RO3, RO2)];
    var m5 := GotLoad(m, c, m4, bhi, a, RO1, RI);
    c := c + [Lw(bhi, RO1, RI)];
    m' := GotLoad(m, c, m5, bhi, b, RO3, RO1);
  }

  lemma AddGot(m: Machine, c: seq<Instr>, m1: Machine) returns (m': Machine)
    requires Valid(m1) && Got(m, c, m1)
    ensures Valid(m') && Got(m, AddCode(c, false), m') && m'.reg[RO3] == m1.reg[RO3]
    ensures Long(m'.reg[RO1], m'.reg[RO2]) ==
            (Long(m1.reg[RI], m1.reg[RJ]) + Long(m1.reg[RO1], m1.reg[RO2])) % LONG
  {
    var ah, al, bh, bl := m1.reg[RI], m1.reg[RJ], m1.reg[RO1], m1.reg[RO2];
    var h, l := (bh + ah) % WORD, (bl + al) % WORD;
    var k: Word := if l < al then 1 else 0;
    AddHalves(ah, al, bh, bl);
    hide Got, Frame, Long;
    var m2 := GotRrr(m, c, m1, Addu, RI, RO1, RO1, h);
    var c2 := c + [Rrr(Addu, RI, RO1, RO1)];
    var m3 := GotRrr(m, c2, m2, Addu, RJ, RO2, RO2, l);
    var c3 := c2 + [Rrr(Addu, RJ, RO2, RO2)];
    var m4 := GotRrr(m, c3, m3, Sltu, RJ, RO2, RI, k);
    m' := GotRrr(m, c3 + [Rrr(Sltu, RJ, RO2, RI)], m4, Addu, RI, RO1, RO1, (h + k) % WORD);
  }

  lemma SubGot(m: Machine, c: seq<Instr>, m1: Machine) returns (m': Machine)
    requires Valid(m1) && Got(m, c, m1)
    ensures Valid(m') && Got(m, AddCode(c, true), m') && m'.reg[RO3] == m1.reg[RO3]
    ensures Long(m'.reg[RO1], m'.reg[RO2]) ==
            (Long(m1.reg[RO1], m1.reg[RO2]) - Long(m1.reg[RI], m1.reg[RJ])) % LONG
  {
    var ah, al, bh, bl := m1.reg[RI], m1.reg[RJ], m1.reg[RO1], m1.reg[RO2];
    var h, l := (bh - ah) % WORD, (bl - al) % WORD;
    var k: Word := if bl < al then 1 else 0;
    SubHalves(ah, al, bh, bl);
    hide Got, Frame, Long;
    var m2 := GotRrr(m, c, m1, Subu, RI, RO1, RO1, h);
    var c2 := c + [Rrr(Subu, RI, RO1, RO1)];
    var m3 := GotRrr(m, c2, m2, Sltu, RJ, RO2, RI, k);
    var c3 := c2 + [Rrr(Sltu, RJ, RO2, RI)];
    var m4 := GotRrr(m, c3, m3, Subu, RJ, RO2, RO2, l);
    m' := GotRrr(m, c3 + [Rrr(Subu, RJ, RO2, RO2)], m4, Subu, RI, RO1, RO1, (h - k) % WORD);
  }

  /** The address of the destination at the end, if it is not there already. */
  lemma ThirdGot(m: Machine, c: seq<Instr>, m1: Machine, mid: Option<Adr>, dst: Adr) returns (m': Machine)
    requires Valid(m1) && Got(m, c, m1) && Readable(m, dst) && (mid == None ==> m1.reg[RO3] == AddrOf(m, dst))
    ensures Valid(m') && Got(m, ThirdCode(c, mid, dst), m') && m'.reg == m1.reg[RO3 := AddrOf(m, dst)]
  {
    hide Got, Frame, AddrOf, LeaCode;
    if mid.Some? {
      m' := GotLea(m, c, m1, dst, RO3);
    } else {
      m' := m1;
      assert m1.reg == m1.reg[RO3 := m1.reg[RO3]];
    }
  }

  function ArithCode(sub: bool, src: Adr, mid: Option<Adr>, dst: Adr, bhi: int): seq<Instr> {
    ThirdCode(AddCode(LoadsCode(src, Second(mid, dst), bhi), sub), mid, dst) + [Sw(bhi, RO3, RO1)] + [Sw(4 - bhi, RO3, RO2)]
  }

  lemma ArithGot(sub: bool, src: Adr, mid: Option<Adr>, dst: Adr, bhi: int, m: Machine) returns (m': Machine)
    requires Valid(m) && Usable(m, src, bhi) && Usable(m, Second(mid, dst), bhi)
    ensures Valid(m') && Got(m, AddCode(LoadsCode(src, Second(mid, dst), bhi), sub), m')
    ensures m'.reg[RO3] == AddrOf(m, Second(mid, dst))
    ensures Long(m'.reg[RO1], m'.reg[RO2]) == Arith(sub, src, mid, dst, bhi, m)
  {
    hide Got, Frame, AddrOf, LeaCode, LoadsCode, AddCode, Long, LongHere, Readable, Second;
    var second := Second(mid, dst);
    var m1 := LoadsGot(m, src, second, bhi);
    if sub {
      m' := SubGot(m, LoadsCode(src, second, bhi), m1);
    } else {
      m' := AddGot(m, LoadsCode(src, second, bhi), m1);
    }
  }

  lemma ArithMeans(sub: bool, src: Adr, mid: Option<Adr>, dst: Adr, bhi: int, m: Machine)
    requires Valid(m) && Usable(m, src, bhi) && Usable(m, Second(mid, dst), bhi) && Usable(m, dst, bhi)
    ensures StoresLong(ArithCode(sub, src, mid, dst, bhi), m, AddrOf(m, dst), bhi, Arith(sub, src, mid, dst, bhi, m))
  {
    hide Got, Frame, AddrOf, LeaCode, Stores, LoadsCode, AddCode, ThirdCode, Long, LongHere, Readable, Arith;
    var c := AddCode(LoadsCode(src, Second(mid, dst), bhi), sub);
    var m1 := ArithGot(sub, src, mid, dst, bhi, m);
    var m2 := ThirdGot(m, c, m1, mid, dst);
    StoreBoth(m, ThirdCode(c, mid, dst), m2, AddrOf(m, dst), bhi, RO1, RO2);
  }

  /** The 64-bit result. */
  function Arith(sub: bool, src: Adr, mid: Option<Adr>, dst: Adr, bhi: int, m: Machine): int
    requires Valid(m) && Usable(m, src, bhi) && Usable(m, Second(mid, dst), bhi)
  {
    var a, b := LongOf(m, src, bhi), LongOf(m, Second(mid, dst), bhi);
    if sub then (b - a) % LONG else (b + a) % LONG
  }

  /** The code for IADDL and ISUBL: for all operands, wherever they are, the sum
      or difference of the 64-bit numbers is stored. */
  method ArithLong(sub: bool, src: Adr, mid: Option<Adr>, dst: Adr, bhi: int) returns (code: seq<Instr>)
    ensures forall m: Machine ::
              Valid(m) && Usable(m, src, bhi) && Usable(m, Second(mid, dst), bhi) && Usable(m, dst, bhi) ==>
                StoresLong(code, m, AddrOf(m, dst), bhi, Arith(sub, src, mid, dst, bhi, m))
  {
    code := Lea(src, RO1);
    var more := Lea(Second(mid, dst), RO3);
    code := code + more;
    code := code + [Lw(4 - bhi, RO1, RJ)] + [Lw(4 - bhi, RO3, RO2)] + [Lw(bhi, RO1, RI)] + [Lw(bhi, RO3, RO1)];
    if sub {
      code := code + [Rrr(Subu, RI, RO1, RO1)] + [Rrr(Sltu, RJ, RO2, RI)] + [Rrr(Subu, RJ, RO2, RO2)] + [Rrr(Subu, RI, RO1, RO1)];
    } else {
      code := code + [Rrr(Addu, RI, RO1, RO1)] + [Rrr(Addu, RJ, RO2, RO2)] + [Rrr(Sltu, RJ, RO2, RI)] + [Rrr(Addu, RI, RO1, RO1)];
    }
    if mid.Some? {
      more := Lea(dst, RO3);
      code := code + more;
    }
    code := code + [Sw(bhi, RO3, RO1)] + [Sw(4 - bhi, RO3, RO2)];
    assert code == ArithCode(sub, src, mid, dst, bhi);
    hide StoresLong, Pow2, AddrOf, Long, LongHere;
    forall m: Machine | Valid(m) && Usable(m, src, bhi) && Usable(m, Second(mid, dst), bhi) && Usable(m, dst, bhi)
      ensures StoresLong(code, m, AddrOf(m, dst), bhi, Arith(sub, src, mid, dst, bhi, m))
    {
      ArithMeans(sub, src, mid, dst, bhi, m);
    }
  }

  // ------------------------------------------------------------------
  // Shifts

  function LeftCode(c: int, mid: Option<Adr>, dst: Adr, bhi: int): seq<Instr> {
    var second := Second(mid, dst);
    if c >= 64 then LeaCode(dst, RO3) + [Sw(bhi, RO3, 0)] + [Sw(4 - bhi, RO3, 0)]
    else if c >= 32 then
      var t := ThirdCode(LeaCode(second, RO3) + [Lw(4 - bhi, RO3, RO1)], mid, dst) + [Sw(4 - bhi, RO3, 0)];
      (if c > 32 then t + [Srr(Sll, c - 32, RO1, RO1)] else t) + [Sw(bhi, RO3, RO1)]
    else
      var t := ThirdCode(LeaCode(second, RO3) + [Lw(4 - bhi, RO3, RO2)] + [Lw(bhi, RO3, RO1)], mid, dst);
      (if c != 0 then t + [Srr(Srl, 32 - c, RO2, RI)] + [Srr(Sll, c, RO2, RO2)] + [Srr(Sll, c, RO1, RO1)]
                      + [Rrr(Orr, RI, RO1, RO1)]
       else t)
      + [Sw(4 - bhi, RO3, RO2)] + [Sw(bhi, RO3, RO1)]
  }

  /** A store, a shift in place, and the other store. */
  lemma StoreShift(m: Machine, code: seq<Instr>, m1: Machine, a: int, c1: int, r1: int, sh: Shift, k: int, c2: int)
    requires Got(m, code, m1) && Valid(m1) && m1.reg[RO3] == a && (r1 == 0 || Working(r1)) && 0 <= k < 32
    requires Aligned(m, At(a, c1)) && Aligned(m, At(a, c2))
    ensures var x := Shifted(sh, m1.reg[RO1], k);
            var r := Run(m, code + [Sw(c1, RO3, r1)] + [Srr(sh, k, RO1, RO1)] + [Sw(c2, RO3, RO1)]);
            r.Some? && Frame(m, r.value) && r.value.mem == m.mem[At(a, c1) := m1.reg[r1]][At(a, c2) := x]
  {
    var x := Shifted(sh, m1.reg[RO1], k);
    var m2 := m1.(mem := m1.mem[At(a, c1) := m1.reg[r1]]);
    var m3 := m2.(reg := m2.reg[RO1 := x]);
    var m4 := m3.(mem := m3.mem[At(a, c2) := x]);
    assert Frame(m, m4);
    hide Exec, Run, Frame, Shifted;
    SwDoes(m1, c1, RO3, r1);
    RunOne(m, code, m1, Sw(c1, RO3, r1), m2);
    SrrDoes(m2, sh, k, RO1, RO1);
    RunOne(m, code + [Sw(c1, RO3, r1)], m2, Srr(sh, k, RO1, RO1), m3);
    SwDoes(m3, c2, RO3, RO1);
    RunOne(m, code + [Sw(c1, RO3, r1)] + [Srr(sh, k, RO1, RO1)], m3, Sw(c2, RO3, RO1), m4);
  }

  lemma LeftLowMeans(c: int, mid: Option<Adr>, dst: Adr, bhi: int, m: Machine)
    requires 0 <= c < 32 && Valid(m) && Usable(m, Second(mid, dst), bhi) && Usable(m, dst, bhi)
    ensures StoresLong(LeftCode(c, mid, dst, bhi), m, AddrOf(m, dst), bhi, (LongOf(m, Second(mid, dst), bhi) * Pow2(c)) % LONG)
  {
    var second := Second(mid, dst);
    hide Got, Frame, LeaCode, ThirdCode, AddrOf, Stores, Shifted, Pow2, Long, LongHere, Readable;
    var m1 := LowHalves(m, second, bhi, true);
    var code := LeaCode(second, RO3) + [Lw(4 - bhi, RO3, RO2)] + [Lw(bhi, RO3, RO1)];
    var m2 := ThirdGot(m, code, m1, mid, dst);
    var t := ThirdCode(code, mid, dst);
    if c == 0 {
      LeftNone(m1.reg[RO1], m1.reg[RO2]);
      StoreBoth(m, t, m2, AddrOf(m, dst), bhi, RO1, RO2);
    } else {
      LeftHalves(m1.reg[RO1], m1.reg[RO2], c);
      var m3 := LeftShifts(m, t, m2, c);
      StoreBoth(m, t + [Srr(Srl, 32 - c, RO2, RI)] + [Srr(Sll, c, RO2, RO2)] + [Srr(Sll, c, RO1, RO1)] + [Rrr(Orr, RI, RO1, RO1)],
                m3, AddrOf(m, dst), bhi, RO1, RO2);
    }
  }

  lemma LeftNone(hi: Word, lo: Word)
    ensures Long(hi, lo) == (Long(hi, lo) * Pow2(0)) % LONG
  {
    LongIs(Long(hi, lo), 0, hi, lo);
  }

  /** Both halves of an operand in Ro1 and Ro2, the low one first or last. */
  lemma LowHalves(m: Machine, a: Adr, bhi: int, lowFirst: bool) returns (m': Machine)
    requires Valid(m) && Usable(m, a, bhi)
    ensures Valid(m') && m'.reg[RO3] == AddrOf(m, a)
    ensures Got(m, if lowFirst then LeaCode(a, RO3) + [Lw(4 - bhi, RO3, RO2)] + [Lw(bhi, RO3, RO1)]
                   else LeaCode(a, RO3) + [Lw(bhi, RO3, RO1)] + [Lw(4 - bhi, RO3, RO2)], m')
    ensures m'.reg[RO1] == Hi(m, AddrOf(m, a), bhi) && m'.reg[RO2] == Lo(m, AddrOf(m, a), bhi)
  {
    GotNone(m);
    var p := AddrOf(m, a);
    assert LongHere(m, p, bhi);
    hide Got, LeaCode, At, Aligned, AddrOf, Frame;
    var c := LeaCode(a, RO3);
    assert [] + c == c;
    var m1 := GotLea(m, [], m, a, RO3);
    if lowFirst {
      var m2 := GotLoad(m, c, m1, 4 - bhi, p, RO3, RO2);
      m' := GotLoad(m, c + [Lw(4 - bhi, RO3, RO2)], m2, bhi, p, RO3, RO1);
    } else {
      var m2 := GotLoad(m, c, m1, bhi, p, RO3, RO1);
      m' := GotLoad(m, c + [Lw(bhi, RO3, RO1)], m2, 4 - bhi, p, RO3, RO2);
    }
  }

  lemma LeftShifts(m: Machine, t: seq<Instr>, m1: Machine, c: int) returns (m': Machine)
    requires 0 < c < 32 && Valid(m1) && Got(m, t, m1)
    requires Or(Shifted(Sll, m1.reg[RO1], c), Shifted(Srl, m1.reg[RO2], 32 - c)) < WORD
    ensures Valid(m') && m'.reg[RO3] == m1.reg[RO3]
    ensures Got(m, t + [Srr(Srl, 32 - c, RO2, RI)] + [Srr(Sll, c, RO2, RO2)] + [Srr(Sll, c, RO1, RO1)]
                   + [Rrr(Orr, RI, RO1, RO1)], m')
    ensures m'.reg[RO1] == Or(Shifted(Sll, m1.reg[RO1], c), Shifted(Srl, m1.reg[RO2], 32 - c))
    ensures m'.reg[RO2] == Shifted(Sll, m1.reg[RO2], c)
  {
    hide Got, Frame, Shifted, Or;
    var m2 := GotSrr(m, t, m1, Srl, 32 - c, RO2, RI);
    var t2 := t + [Srr(Srl, 32 - c, RO2, RI)];
    var m3 := GotSrr(m, t2, m2, Sll, c, RO2, RO2);
    var t3 := t2 + [Srr(Sll, c, RO2, RO2)];
    var m4 := GotSrr(m, t3, m3, Sll, c, RO1, RO1);
    m' := GotRrr(m, t3 + [Srr(Sll, c, RO1, RO1)], m4, Orr, RI, RO1, RO1,
                 Or(Shifted(Sll, m1.reg[RO1], c), Shifted(Srl, m1.reg[RO2], 32 - c)));
  }

  lemma LeftHighMeans(c: int, mid: Option<Adr>, dst: Adr, bhi: int, m: Machine)
    requires 32 <= c < 64 && Valid(m) && Usable(m, Second(mid, dst), bhi) && Usable(m, dst, bhi)
    ensures StoresLong(LeftCode(c, mid, dst, bhi), m, AddrOf(m, dst), bhi, (LongOf(m, Second(mid, dst), bhi) * Pow2(c)) % LONG)
  {
    var second := Second(mid, dst);
    var b, d := AddrOf(m, second), AddrOf(m, dst);
    assert LongHere(m, b, bhi) && LongHere(m, d, bhi) && m.reg[0] == 0;
    LeftHigh(Hi(m, b, bhi), Lo(m, b, bhi), c);
    hide Got, Frame, LeaCode, ThirdCode, AddrOf, Pow2, Long, Readable;
    var m1 := LowHalf(m, second, bhi);
    var code := LeaCode(second, RO3) + [Lw(4 - bhi, RO3, RO1)];
    var m2 := ThirdGot(m, code, m1, mid, dst);
    assert m2.reg[0] == 0;
    var t := ThirdCode(code, mid, dst);
    if c == 32 {
      ShiftNone(m1.reg[RO1]);
      StoreBoth(m, t, m2, d, bhi, RO1, 0);
    } else {
      StoreShift(m, t, m2, d, 4 - bhi, 0, Sll, c - 32, bhi);
      Apart(d, bhi);
      MapSwap(m.mem, At(d, bhi), At(d, 4 - bhi), Shifted(Sll, m1.reg[RO1], c - 32), 0);
    }
    assert Stores(LeftCode(c, mid, dst, bhi), m, d, bhi, Shifted(Sll, m1.reg[RO1], c - 32), 0);
  }

  lemma ShiftNone(x: Word)
    ensures Shifted(Sll, x, 0) == x && Shifted(Srl, x, 0) == x && Shifted(Sra, x, 0) == x
  {
    WordIs(x, 0, x);
    SignedWord(x);
  }

  lemma SignedWord(x: Word)
    ensures Signed(x) % WORD == x
  {
    if x >= HALF { WordIs(Signed(x), -1, x); } else { WordIs(Signed(x), 0, x); }
  }

  lemma LowHalf(m: Machine, a: Adr, bhi: int) returns (m': Machine)
    requires Valid(m) && Usable(m, a, bhi)
    ensures Valid(m') && m'.reg[RO3] == AddrOf(m, a) && Got(m, LeaCode(a, RO3) + [Lw(4 - bhi, RO3, RO1)], m')
    ensures m'.reg[RO1] == Lo(m, AddrOf(m, a), bhi)
  {
    GotNone(m);
    var p := AddrOf(m, a);
    assert LongHere(m, p, bhi);
    hide Got, LeaCode, At, Aligned, AddrOf, Frame;
    assert [] + LeaCode(a, RO3) == LeaCode(a, RO3);
    var m1 := GotLea(m, [], m, a, RO3);
    m' := GotLoad(m, LeaCode(a, RO3), m1, 4 - bhi, p, RO3, RO1);
  }

  lemma LeftOutMeans(c: int, mid: Option<Adr>, dst: Adr, bhi: int, m: Machine)
    requires c >= 64 && Valid(m) && Usable(m, Second(mid, dst), bhi) && Usable(m, dst, bhi)
    ensures StoresLong(LeftCode(c, mid, dst, bhi), m, AddrOf(m, dst), bhi, (LongOf(m, Second(mid, dst), bhi) * Pow2(c)) % LONG)
  {
    var b, d := AddrOf(m, Second(mid, dst)), AddrOf(m, dst);
    GotNone(m);
    LeftOut(Hi(m, b, bhi), Lo(m, b, bhi), c);
    NoBits();
    assert m.reg[0] == 0;
    hide Got, Frame, LeaCode, AddrOf, Pow2, Long, Readable, Stores;
    assert [] + LeaCode(dst, RO3) == LeaCode(dst, RO3);
    var m1 := GotLea(m, [], m, dst, RO3);
    StoreBoth(m, LeaCode(dst, RO3), m1, d, bhi, 0, 0);
    assert Stores(LeftCode(c, mid, dst, bhi), m, d, bhi, 0, 0);
  }

  /** The instructions of shll. */
  method EmitLeft(c: int, mid: Option<Adr>, dst: Adr, bhi: int) returns (code: seq<Instr>)
    ensures code == LeftCode(c, mid, dst, bhi)
  {
    if c >= 64 {
      code := Lea(dst, RO3);
      code := code + [Sw(bhi, RO3, 0)] + [Sw(4 - bhi, RO3, 0)];
      return;
    }
    code := Lea(Second(mid, dst), RO3);
    var more;
    if c >= 32 {
      code := code + [Lw(4 - bhi, RO3, RO1)];
      if mid.Some? {
        more := Lea(dst, RO3);
        code := code + more;
      }
      code := code + [Sw(4 - bhi, RO3, 0)];
      if c > 32 { code := code + [Srr(Sll, c - 32, RO1, RO1)]; }
      code := code + [Sw(bhi, RO3, RO1)];
      return;
    }
    code := code + [Lw(4 - bhi, RO3, RO2)] + [Lw(bhi, RO3, RO1)];
    if mid.Some? {
      more := Lea(dst, RO3);
      code := code + more;
    }
    if c != 0 {
      code := code + [Srr(Srl, 32 - c, RO2, RI)] + [Srr(Sll, c, RO2, RO2)] + [Srr(Sll, c, RO1, RO1)] + [Rrr(Orr, RI, RO1, RO1)];
    }
    code := code + [Sw(4 - bhi, RO3, RO2)] + [Sw(bhi, RO3, RO1)];
  }

  /** `shll`: a shift to the left by any number of places. */
  method ShiftLeftLong(c: int, mid: Option<Adr>, dst: Adr, bhi: int) returns (code: seq<Instr>)
    ensures c >= 0 ==> forall m: Machine ::
              Valid(m) && Usable(m, Second(mid, dst), bhi) && Usable(m, dst, bhi) ==>
                StoresLong(code, m, AddrOf(m, dst), bhi, (LongOf(m, Second(mid, dst), bhi) * Pow2(c)) % LONG)
  {
    code := EmitLeft(c, mid, dst, bhi);
    hide StoresLong, Pow2, AddrOf, Long, LongHere;
    forall m: Machine | c >= 0 && Valid(m) && Usable(m, Second(mid, dst), bhi) && Usable(m, dst, bhi)
      ensures StoresLong(code, m, AddrOf(m, dst), bhi, (LongOf(m, Second(mid, dst), bhi) * Pow2(c)) % LONG)
    {
      if c < 32 {
        LeftLowMeans(c, mid, dst, bhi, m);
      } else if c < 64 {
        LeftHighMeans(c, mid, dst, bhi, m);
      } else {
        LeftOutMeans(c, mid, dst, bhi, m);
      }
    }
  }

  function RightCode(c: int, mid: Option<Adr>, dst: Adr, bhi: int): seq<Instr> {
    var second := Second(mid, dst);
    if c >= 32 then
      var l := LeaCode(second, RO3) + [Lw(bhi, RO3, RO1)];
      var t := (if mid.Some? then l + LeaCode(dst, RO3) else l + [Delay]) + [Srr(Sra, 31, RO1, RO2)] + [Sw(bhi, RO3, RO2)];
      if c >= 64 then t + [Sw(4 - bhi, RO3, RO2)]
      else (if c > 32 then t + [Srr(Sra, c - 32, RO1, RO1)] else t) + [Sw(4 - bhi, RO3, RO1)]
    else
      var t := ThirdCode(LeaCode(second, RO3) + [Lw(bhi, RO3, RO1)] + [Lw(4 - bhi, RO3, RO2)], mid, dst);
      (if c != 0 then t + [Srr(Sll, 32 - c, RO1, RI)] + [Srr(Sra, c, RO1, RO1)] + [Srr(Srl, c, RO2, RO2)]
                      + [Rrr(Orr, RI, RO2, RO2)]
       else t)
      + [Sw(4 - bhi, RO3, RO2)] + [Sw(bhi, RO3, RO1)]
  }

  lemma RightLowMeans(c: int, mid: Option<Adr>, dst: Adr, bhi: int, m: Machine)
    requires 0 <= c < 32 && Valid(m) && Usable(m, Second(mid, dst), bhi) && Usable(m, dst, bhi)
    ensures StoresSigned(RightCode(c, mid, dst, bhi), m, AddrOf(m, dst), bhi, ShiftRight(SignedLongOf(m, Second(mid, dst), bhi), c))
  {
    var second := Second(mid, dst);
    hide Got, Frame, LeaCode, ThirdCode, AddrOf, Stores, Shifted, Pow2, SignedLong, LongHere, Readable, ShiftRight;
    var m1 := LowHalves(m, second, bhi, false);
    var code := LeaCode(second, RO3) + [Lw(bhi, RO3, RO1)] + [Lw(4 - bhi, RO3, RO2)];
    var m2 := ThirdGot(m, code, m1, mid, dst);
    var t := ThirdCode(code, mid, dst);
    if c == 0 {
      RightNone(SignedLong(m1.reg[RO1], m1.reg[RO2]));
      StoreBoth(m, t, m2, AddrOf(m, dst), bhi, RO1, RO2);
    } else {
      RightHalves(m1.reg[RO1], m1.reg[RO2], c);
      var m3 := RightShiftsGot(m, t, m2, c);
      StoreBoth(m, t + [Srr(Sll, 32 - c, RO1, RI)] + [Srr(Sra, c, RO1, RO1)] + [Srr(Srl, c, RO2, RO2)] + [Rrr(Orr, RI, RO2, RO2)],
                m3, AddrOf(m, dst), bhi, RO1, RO2);
    }
  }

  lemma RightNone(x: int)
    ensures ShiftRight(x, 0) == x
  {
  }

  lemma RightShiftsGot(m: Machine, t: seq<Instr>, m1: Machine, c: int) returns (m': Machine)
    requires 0 < c < 32 && Valid(m1) && Got(m, t, m1)
    requires Or(Shifted(Srl, m1.reg[RO2], c), Shifted(Sll, m1.reg[RO1], 32 - c)) < WORD
    ensures Valid(m') && m'.reg[RO3] == m1.reg[RO3]
    ensures Got(m, t + [Srr(Sll, 32 - c, RO1, RI)] + [Srr(Sra, c, RO1, RO1)] + [Srr(Srl, c, RO2, RO2)]
                   + [Rrr(Orr, RI, RO2, RO2)], m')
    ensures m'.reg[RO2] == Or(Shifted(Srl, m1.reg[RO2], c), Shifted(Sll, m1.reg[RO1], 32 - c))
    ensures m'.reg[RO1] == Shifted(Sra, m1.reg[RO1], c)
  {
    hide Got, Frame, Shifted, Or;
    var m2 := GotSrr(m, t, m1, Sll, 32 - c, RO1, RI);
    var t2 := t + [Srr(Sll, 32 - c, RO1, RI)];
    var m3 := GotSrr(m, t2, m2, Sra, c, RO1, RO1);
    var t3 := t2 + [Srr(Sra, c, RO1, RO1)];
    var m4 := GotSrr(m, t3, m3, Srl, c, RO2, RO2);
    m' := GotRrr(m, t3 + [Srr(Srl, c, RO2, RO2)], m4, Orr, RI, RO2, RO2,
                 Or(Shifted(Srl, m1.reg[RO2], c), Shifted(Sll, m1.reg[RO1], 32 - c)));
  }

  /** The start of shrl by a word or more: the sign in Ro2. */
  function SignCode(mid: Option<Adr>, dst: Adr, bhi: int): seq<Instr> {
    var l := LeaCode(Second(mid, dst), RO3) + [Lw(bhi, RO3, RO1)];
    (if mid.Some? then l + LeaCode(dst, RO3) else l + [Delay]) + [Srr(Sra, 31, RO1, RO2)]
  }

  lemma SignGot(mid: Option<Adr>, dst: Adr, bhi: int, m: Machine) returns (m': Machine)
    requires Valid(m) && Usable(m, Second(mid, dst), bhi) && Usable(m, dst, bhi)
    ensures Valid(m') && Got(m, SignCode(mid, dst, bhi), m') && m'.reg[RO3] == AddrOf(m, dst)
    ensures m'.reg[RO1] == Hi(m, AddrOf(m, Second(mid, dst)), bhi) && m'.reg[RO2] == Shifted(Sra, m'.reg[RO1], 31)
  {
    GotNone(m);
    var second := Second(mid, dst);
    var p := AddrOf(m, second);
    assert LongHere(m, p, bhi);
    hide Got, LeaCode, At, Aligned, AddrOf, Frame, Shifted;
    assert [] + LeaCode(second, RO3) == LeaCode(second, RO3);
    var m1 := GotLea(m, [], m, second, RO3);
    var m2 := GotLoad(m, LeaCode(second, RO3), m1, bhi, p, RO3, RO1);
    var l := LeaCode(second, RO3) + [Lw(bhi, RO3, RO1)];
    if mid.Some? {
      var m3 := GotLea(m, l, m2, dst, RO3);
      m' := GotSrr(m, l + LeaCode(dst, RO3), m3, Sra, 31, RO1, RO2);
    } else {
      GotDelay(m, l, m2);
      m' := GotSrr(m, l + [Delay], m2, Sra, 31, RO1, RO2);
    }
  }

  lemma GotDelay(m: Machine, code: seq<Instr>, m1: Machine)
    requires Got(m, code, m1) && Valid(m1)
    ensures Got(m, code + [Delay], m1)
  {
    DelayDoes(m1);
    RunOne(m, code, m1, Delay, m1);
    hide Run, Exec;
  }

  lemma RightHighMeans(c: int, mid: Option<Adr>, dst: Adr, bhi: int, m: Machine)
    requires c >= 32 && Valid(m) && Usable(m, Second(mid, dst), bhi) && Usable(m, dst, bhi)
    ensures StoresSigned(RightCode(c, mid, dst, bhi), m, AddrOf(m, dst), bhi, ShiftRight(SignedLongOf(m, Second(mid, dst), bhi), c))
  {
    var b, d := AddrOf(m, Second(mid, dst)), AddrOf(m, dst);
    assert LongHere(m, b, bhi) && LongHere(m, d, bhi);
    var hi, lo := Hi(m, b, bhi), Lo(m, b, bhi);
    var t := SignCode(mid, dst, bhi);
    hide Got, Frame, LeaCode, AddrOf, Shifted, Pow2, SignedLong, Readable, ShiftRight, SignCode;
    var m1 := SignGot(mid, dst, bhi, m);
    var s := Shifted(Sra, hi, 31);
    if c >= 64 {
      RightOut(hi, lo, c);
      StoreBoth(m, t, m1, d, bhi, RO2, RO2);
      assert Stores(RightCode(c, mid, dst, bhi), m, d, bhi, s, s) by { RightCodeIs(c, mid, dst, bhi); }
    } else {
      RightHigh(hi, lo, c);
      ShiftNone(hi);
      if c == 32 {
        StoreBoth(m, t, m1, d, bhi, RO2, RO1);
      } else {
        StoreShift(m, t, m1, d, bhi, RO2, Sra, c - 32, 4 - bhi);
      }
      assert Stores(RightCode(c, mid, dst, bhi), m, d, bhi, s, Shifted(Sra, hi, c - 32)) by { RightCodeIs(c, mid, dst, bhi); }
    }
  }

  lemma RightCodeIs(c: int, mid: Option<Adr>, dst: Adr, bhi: int)
    requires c >= 32
    ensures RightCode(c, mid, dst, bhi) ==
            var t := SignCode(mid, dst, bhi);
            if c >= 64 then t + [Sw(bhi, RO3, RO2)] + [Sw(4 - bhi, RO3, RO2)]
            else if c > 32 then t + [Sw(bhi, RO3, RO2)] + [Srr(Sra, c - 32, RO1, RO1)] + [Sw(4 - bhi, RO3, RO1)]
            else t + [Sw(bhi, RO3, RO2)] + [Sw(4 - bhi, RO3, RO1)]
  {
  }

  /** The instructions of shrl. */
  method EmitRight(c: int, mid: Option<Adr>, dst: Adr, bhi: int) returns (code: seq<Instr>)
    ensures code == RightCode(c, mid, dst, bhi)
  {
    code := Lea(Second(mid, dst), RO3);
    code := code + [Lw(bhi, RO3, RO1)];
    var more;
    if c >= 32 {
      if mid.Some? {
        more := Lea(dst, RO3);
        code := code + more;
      } else {
        code := code + [Delay];
      }
      code := code + [Srr(Sra, 31, RO1, RO2)] + [Sw(bhi, RO3, RO2)];
      if c >= 64 {
        code := code + [Sw(4 - bhi, RO3, RO2)];
        return;
      }
      if c > 32 { code := code + [Srr(Sra, c - 32, RO1, RO1)]; }
      code := code + [Sw(4 - bhi, RO3, RO1)];
      return;
    }
    code := code + [Lw(4 - bhi, RO3, RO2)];
    if mid.Some? {
      more := Lea(dst, RO3);
      code := code + more;
    }
    if c != 0 {
      code := code + [Srr(Sll, 32 - c, RO1, RI)] + [Srr(Sra, c, RO1, RO1)] + [Srr(Srl, c, RO2, RO2)] + [Rrr(Orr, RI, RO2, RO2)];
    }
    code := code + [Sw(4 - bhi, RO3, RO2)] + [Sw(bhi, RO3, RO1)];
  }

  /** `shrl`: a shift to the right, keeping the sign, by any number of places. */
  method ShiftRightLong(c: int, mid: Option<Adr>, dst: Adr, bhi: int) returns (code: seq<Instr>)
    ensures c >= 0 ==> forall m: Machine ::
              Valid(m) && Usable(m, Second(mid, dst), bhi) && Usable(m, dst, bhi) ==>
                StoresSigned(code, m, AddrOf(m, dst), bhi, ShiftRight(SignedLongOf(m, Second(mid, dst), bhi), c))
  {
    code := EmitRight(c, mid, dst, bhi);
    hide StoresSigned, Pow2, AddrOf, SignedLong, LongHere, ShiftRight;
    forall m: Machine | c >= 0 && Valid(m) && Usable(m, Second(mid, dst), bhi) && Usable(m, dst, bhi)
      ensures StoresSigned(code, m, AddrOf(m, dst), bhi, ShiftRight(SignedLongOf(m, Second(mid, dst), bhi), c))
    {
      if c < 32 {
        RightLowMeans(c, mid, dst, bhi, m);
      } else {
        RightHighMeans(c, mid, dst, bhi, m);
      }
    }
  }
}
