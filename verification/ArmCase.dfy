/**
 The case statement of the ARM code generator (libinterp/comp-arm.c): the table
 of ranges, relocated once (comcase, lines 917-951), and the macro that searches
 it by halving (maccase, lines 1778-1822).
 */
module ArmCase {
  import opened Basics
  import opened Words
  import opened ArmMachine
  import opened ArmLiterals

  const RA0 := 1
  const RA1 := 2
  const RA2 := 3
  const RA3 := 4
  const RCON := 6
  const RTA := 7
  const RLINK := 14

  // Places in the macro.
  const LOOP := 2
  const INNER := 4
  const OUT := 18

  function Back(from: int, to: int): int {
    (to - from - 2) % 0x100_0000
  }

  /** The macro, instruction by instruction. */
  function CaseInstr(k: int): Instr {
    match k
    case 0 => Mem(AL, true, true, RA3, RA2, 0)
    case 1 => Dp(AL, MOV, false, 0, RLINK, 0, RA3)
    case 2 => Dpi(AL, CMP, true, RA2, 0, 0, 0)
    case 3 => Branch(LE, Back(3, OUT))
    case 4 => Dp(AL, MOV, false, 0, RA0, 10, RA2)
    case 5 => Dp(AL, ADD, false, RA0, RCON, 8, RA0)
    case 6 => Dp(AL, ADD, false, RA3, RCON, 16, RCON)
    case 7 => Mem(AL, true, true, RCON, RTA, 4)
    case 8 => Dp(AL, CMP, true, RA1, 0, 0, RTA)
    case 9 => Dp(LT, MOV, false, 0, RA2, 0, RA0)
    case 10 => Branch(LT, Back(10, LOOP))
    case 11 => Mem(AL, true, true, RCON, RTA, 8)
    case 12 => Dp(AL, CMP, true, RA1, 0, 0, RTA)
    case 13 => Mem(LT, true, true, RCON, R15, 12)
    case 14 => Dpi(AL, ADD, false, RCON, RA3, 0, 12)
    case 15 => Dpi(AL, ADD, false, RA0, RTA, 0, 1)
    case 16 => Dp(AL, SUB, true, RA2, RA2, 0, RTA)
    case 17 => Branch(GT, Back(17, INNER))
    case 18 => Mem(AL, true, true, RLINK, RA2, 0)
    case 19 => Dp(AL, ADD, false, RA2, RA2, 8, RA2)
    case 20 => Dp(AL, ADD, false, RLINK, RLINK, 16, RA2)
    case _ => Mem(AL, true, true, RLINK, R15, 4)
  }

  /** The macro is in the code, from word s on. */
  ghost predicate Macro(code: seq<Word>, s: nat) {
    s + 22 <= |code| && forall k :: 0 <= k < 22 ==> CaseInstr(k).Fits() && code[s + k] == Encode(CaseInstr(k))
  }

  /** `maccase`: the words, with the forward branch patched. */
  method MacCase() returns (code: seq<Word>)
    ensures Macro(code, 0) && |code| == 22
  {
    hide Encode;
    code := [Encode(Mem(AL, true, true, RA3, RA2, 0)), Encode(Dp(AL, MOV, false, 0, RLINK, 0, RA3))];
    var loop := |code|;
    code := code + [Encode(Dpi(AL, CMP, true, RA2, 0, 0, 0))];
    var cp1 := |code|;
    code := code + [Encode(Branch(LE, 0))];
    var inner := |code|;
    code := code + [
      Encode(Dp(AL, MOV, false, 0, RA0, 1 * 8 + 2, RA2)),
      Encode(Dp(AL, ADD, false, RA0, RCON, 1 * 8, RA0)),
      Encode(Dp(AL, ADD, false, RA3, RCON, 2 * 8, RCON)),
      Encode(Mem(AL, true, true, RCON, RTA, 4)),
      Encode(Dp(AL, CMP, true, RA1, 0, 0, RTA)),
      Encode(Dp(LT, MOV, false, 0, RA2, 0, RA0))];
    code := code + [Encode(Branch(LT, Back(|code|, loop)))];
    code := code + [
      Encode(Mem(AL, true, true, RCON, RTA, 8)),
      Encode(Dp(AL, CMP, true, RA1, 0, 0, RTA)),
      Encode(Mem(LT, true, true, RCON, R15, 12)),
      Encode(Dpi(AL, ADD, false, RCON, RA3, 0, 12)),
      Encode(Dpi(AL, ADD, false, RA0, RTA, 0, 1)),
      Encode(Dp(AL, SUB, true, RA2, RA2, 0, RTA))];
    code := code + [Encode(Branch(GT, Back(|code|, inner)))];
    Patched(LE, Back(cp1, |code|));
    code := code[cp1 := code[cp1] + Back(cp1, |code|)];
    code := code + [
      Encode(Mem(AL, true, true, RLINK, RA2, 0)),
      Encode(Dp(AL, ADD, false, RA2, RA2, 1 * 8, RA2)),
      Encode(Dp(AL, ADD, false, RLINK, RLINK, 2 * 8, RA2)),
      Encode(Mem(AL, true, true, RLINK, R15, 4))];
    forall k | 0 <= k < 22 ensures CaseInstr(k).Fits() && code[k] == Encode(CaseInstr(k)) {
      CaseFits(k);
    }
  }

  lemma Patched(cc: int, off: int)
    requires Branch(cc, off).Fits()
    ensures Encode(Branch(cc, 0)) + off == Encode(Branch(cc, off))
  {
  }

  lemma CaseFits(k: int)
    ensures CaseInstr(k).Fits()
  {
  }

  // ------------------------------------------------------------------
  // The table

  /** A range of values, and where it leads. */
  datatype Range = Range(lo: Word, hi: Word, dst: Word)

  /** The ranges are in order and do not overlap. */
  ghost predicate Ordered(tab: seq<Range>) {
    && (forall k :: 0 <= k < |tab| ==> Signed(tab[k].lo) <= Signed(tab[k].hi))
    && (forall j, k :: 0 <= j < k < |tab| ==> Signed(tab[j].hi) <= Signed(tab[k].lo))
  }

  predicate Holds(x: Range, v: Word) {
    Signed(x.lo) <= Signed(v) < Signed(x.hi)
  }

  /** Where a case leads: the table searched from the front. */
  function Destination(tab: seq<Range>, dflt: Word, v: Word): Word {
    if tab == [] then dflt else if Holds(tab[0], v) then tab[0].dst else Destination(tab[1..], dflt, v)
  }

  lemma {:induction false} DestinationIs(tab: seq<Range>, dflt: Word, v: Word, k: nat)
    requires Ordered(tab) && k < |tab| && Holds(tab[k], v)
    ensures Destination(tab, dflt, v) == tab[k].dst
  {
    if k > 0 {
      assert Signed(tab[0].hi) <= Signed(tab[k].lo);
      DestinationIs(tab[1..], dflt, v, k - 1);
    }
  }

  lemma {:induction false} DestinationNone(tab: seq<Range>, dflt: Word, v: Word)
    requires forall k :: 0 <= k < |tab| ==> !Holds(tab[k], v)
    ensures Destination(tab, dflt, v) == dflt
  {
    if tab != [] { DestinationNone(tab[1..], dflt, v); }
  }

  predicate Has(m: Machine, at: int, w: Word) {
    at in m.mem && m.mem[at] == w
  }

  /** The table is in memory at t: the count, the ranges, and the default. */
  ghost predicate Table(m: Machine, t: int, tab: seq<Range>, dflt: Word) {
    && t % 4 == 0 && 0 <= t && t + 12 * |tab| + 16 < WORD
    && Has(m, t, |tab|) && Has(m, t + 12 * |tab| + 4, dflt)
    && forall k :: 0 <= k < |tab| ==>
         Has(m, t + 12 * k + 4, tab[k].lo) && Has(m, t + 12 * k + 8, tab[k].hi) && Has(m, t + 12 * k + 12, tab[k].dst)
  }

  // ------------------------------------------------------------------
  // Relocation

  /** The number of ranges; it is kept as -n-1 while the table is not done. */
  function Count(l: int): nat {
    if l >= 0 then l else -l - 1
  }

  function Mark(n: int): int { -1 - n }

  /** Place i of the module data is a destination in the table at t: the third
      word of a range, or the default. */
  predicate IsDest(i: int, t: int, n: nat) {
    (t <= i < t + 3 * n && (i - t) % 3 == 2) || i == t + 3 * n
  }

  /** There is a table at t, with instruction numbers for destinations. */
  ghost predicate Numbered(s: seq<int>, t: int, n: nat, patch: seq<Word>) {
    && 1 <= t && t + 3 * n < |s|
    && forall i :: t <= i <= t + 3 * n && IsDest(i, t, n) ==> 0 <= s[i] < |patch|
  }

  /** The table with addresses instead, and the count plain. */
  ghost predicate Relocated(s: seq<int>, s': seq<int>, t: int, n: nat, base: int, patch: seq<Word>)
    requires Numbered(s, t, n, patch)
  {
    && |s'| == |s|
    && forall i :: 0 <= i < |s| ==>
         s'[i] == if i == t - 1 then n else if IsDest(i, t, n) then Addr(base, patch[s[i]]) else s[i]
  }

  /** `comcase`, what it does to the table at t. */
  method ComCase(mp: array<int>, t: int, second: bool, base: int, patch: seq<Word>)
    requires 1 <= t <= mp.Length
    requires second && mp[t - 1] < 0 ==> Numbered(mp[..], t, Count(mp[t - 1]), patch)
    modifies mp
    ensures !second ==> mp[..] == old(mp[..])[t - 1 := Mark(Count(old(mp[t - 1])))]
    ensures second && old(mp[t - 1]) >= 0 ==> mp[..] == old(mp[..])
    ensures second && old(mp[t - 1]) < 0 ==> Relocated(old(mp[..]), mp[..], t, Count(old(mp[t - 1])), base, patch)
  {
    var l := mp[t - 1];
    if !second {
      if l >= 0 { mp[t - 1] := -l - 1; }
      return;
    }
    if l >= 0 { return; }
    mp[t - 1] := -l - 1;
    var n := mp[t - 1];
    var p, e := t, t + n * 3;
    ghost var k := 0;
    while p < e
      invariant 0 <= k <= n && p == t + 3 * k
      invariant mp[t - 1] == n
      invariant forall i :: 0 <= i < mp.Length && i != t - 1 && (i < t || i >= p || !IsDest(i, t, n)) ==> mp[i] == old(mp[i])
      invariant forall i :: t <= i < p && IsDest(i, t, n) ==> mp[i] == Addr(base, patch[old(mp[i])])
    {
      assert IsDest(p + 2, t, n);
      assert !IsDest(p, t, n) && !IsDest(p + 1, t, n);
      mp[p + 2] := Addr(base, patch[mp[p + 2]]);
      p, k := p + 3, k + 1;
    }
    assert IsDest(p, t, n);
    mp[p] := Addr(base, patch[mp[p]]);
  }

  /** However often the compiler has duplicated a case statement, its table is
      relocated once. */
  method ComCases(mp: array<int>, t: int, copies: nat, base: int, patch: seq<Word>)
    requires 1 <= t <= mp.Length && mp[t - 1] >= 0 && copies > 0 && Numbered(mp[..], t, mp[t - 1], patch)
    modifies mp
    ensures Relocated(old(mp[..]), mp[..], t, old(mp[t - 1]), base, patch)
  {
    ghost var s, n := mp[..], mp[t - 1];
    for i := 0 to copies
      invariant if i == 0 then mp[..] == s else mp[..] == s[t - 1 := Mark(n)]
    {
      ComCase(mp, t, false, base, patch);
    }
    ghost var marked := mp[..];
    assert forall i :: IsDest(i, t, n) ==> i != t - 1;
    assert Numbered(marked, t, n, patch);
    for i := 0 to copies
      invariant if i == 0 then mp[..] == marked else Relocated(marked, mp[..], t, n, base, patch)
    {
      ComCase(mp, t, true, base, patch);
    }
  }

  // ------------------------------------------------------------------
  // Single instructions

  lemma DpDoes(m: Machine, cc: int, op: int, rn: int, rd: int, sh: int, rm: int, b: Word, x: Word)
    requires Valid(m) && Dp(cc, op, false, rn, rd, sh, rm).Fits() && rn < 15 && rd < 15 && rm < 15 && op != CMP
    requires Shifted(m.reg[rm], sh) == Some(b) && Alu(op, m.reg[rn], b) == Some(x)
    ensures Execute(m, Dp(cc, op, false, rn, rd, sh, rm)) ==
            Some(m.(pc := m.pc + 4, reg := if Cond(cc, m) then m.reg[rd := x] else m.reg))
  {
    hide Cond, Shifted, Alu;
  }

  lemma CmpDoes(m: Machine, rn: int, rm: int)
    requires Valid(m) && 0 <= rn < 15 && 0 <= rm < 15
    ensures Execute(m, Dp(AL, CMP, true, rn, 0, 0, rm)) == Some(SubFlags(m, m.reg[rn], m.reg[rm]).(pc := m.pc + 4))
  {
    assert Pow2(0) == 1;
    hide SubFlags, Alu;
    assert Alu(CMP, m.reg[rn], m.reg[rm]).Some? by { CmpHas(m.reg[rn], m.reg[rm]); }
  }

  lemma CmpHas(a: Word, b: Word)
    ensures Alu(CMP, a, b).Some?
  {
  }

  lemma CmpZeroDoes(m: Machine, rn: int)
    requires Valid(m) && 0 <= rn < 15
    ensures Execute(m, Dpi(AL, CMP, true, rn, 0, 0, 0)) == Some(SubFlags(m, m.reg[rn], 0).(pc := m.pc + 4))
  {
    assert Ror(0, 0) == 0;
    hide SubFlags, Ror;
  }

  lemma SubDoes(m: Machine, rd: int, rm: int)
    requires Valid(m) && 0 <= rd < 15 && 0 <= rm < 15
    ensures Execute(m, Dp(AL, SUB, true, rd, rd, 0, rm)) ==
            Some(SubFlags(m, m.reg[rd], m.reg[rm]).(pc := m.pc + 4, reg := m.reg[rd := (m.reg[rd] - m.reg[rm]) % WORD]))
  {
    assert Pow2(0) == 1;
    assert Alu(SUB, m.reg[rd], m.reg[rm]) == Some((m.reg[rd] - m.reg[rm]) % WORD);
    hide SubFlags, Alu;
  }

  lemma ReadDoes(m: Machine, cc: int, rn: int, rd: int, off: int, w: Word)
    requires Valid(m) && 0 <= cc < 16 && 0 <= rn < 15 && 0 <= rd < 16 && 0 <= off < 4096
    requires m.reg[rn] + off < WORD && (m.reg[rn] + off) % 4 == 0 && Has(m, m.reg[rn] + off, w)
    ensures Execute(m, Mem(cc, true, true, rn, rd, off)) ==
            Some(if !Cond(cc, m) then m.(pc := m.pc + 4)
                 else if rd == 15 then m.(pc := w) else m.(pc := m.pc + 4, reg := m.reg[rd := w]))
  {
    hide Cond;
  }

  lemma BranchDoes(m: Machine, cc: int, from: int, to: int)
    requires Valid(m) && 0 <= cc < 16 && 0 <= from < 22 && 0 <= to < 22
    ensures Execute(m, Branch(cc, Back(from, to))) ==
            Some(m.(pc := if Cond(cc, m) then m.pc + 4 * (to - from) else m.pc + 4))
  {
    hide Cond;
  }

  /** The flags after a subtraction order the two words as signed numbers. */
  lemma FlagsOrder(m: Machine, a: Word, b: Word)
    ensures var f := SubFlags(m, a, b);
            && (Cond(LT, f) <==> Signed(a) < Signed(b))
            && (Cond(GT, f) <==> Signed(a) > Signed(b))
            && (Cond(LE, f) <==> Signed(a) <= Signed(b))
  {
  }

  // ------------------------------------------------------------------
  // The search

  /** What a run of the macro is about: where it is, the table, the value, and
      the machine it was entered with. */
  datatype Job = Job(code: seq<Word>, s: nat, base: int, t: int, tab: seq<Range>, dflt: Word, v: Word, m0: Machine)

  ghost predicate Entered(j: Job) {
    && Valid(j.m0) && Macro(j.code, j.s) && Loaded(j.m0, j.base, j.code) && Table(j.m0, j.t, j.tab, j.dflt)
    && j.m0.reg[RA1] == j.v
  }

  /** Nothing but the registers of the macro has changed. */
  ghost predicate Kept(j: Job, m: Machine) {
    && Valid(m) && Valid(j.m0) && m.mem == j.m0.mem
    && forall r :: 0 <= r < 15 && r != RA0 && r != RA2 && r != RA3 && r != RCON && r != RTA && r != RLINK ==>
         m.reg[r] == j.m0.reg[r]
  }

  /** In the macro, at instruction k, with the table pointer saved. */
  ghost predicate In(j: Job, m: Machine, k: nat) {
    Kept(j, m) && m.pc == Addr(j.base, j.s + k) && m.reg[RLINK] == j.t
  }

  lemma Goes(j: Job, m: Machine, k: nat, m': Machine)
    requires Entered(j) && Kept(j, m) && k < 22 && m.pc == Addr(j.base, j.s + k)
    requires Execute(m, CaseInstr(k)) == Some(m')
    ensures Valid(m') && Reaches(m, m')
  {
    assert Loaded(m, j.base, j.code);
    assert j.code[j.s + k] == Encode(CaseInstr(k));
    hide Encode, Execute, CaseInstr, Loaded, Table;
    AtCode(m, j.base, j.code, j.s + k, CaseInstr(k));
    ReachesStep(m, CaseInstr(k), m');
  }

  function Set(m: Machine, r: nat, x: Word): Machine
    requires r < |m.reg|
  {
    m.(pc := m.pc + 4, reg := m.reg[r := x])
  }

  lemma Sets(j: Job, m: Machine, k: nat, r: nat, x: Word)
    requires Entered(j) && In(j, m, k) && k < 22
    requires r == RA0 || r == RA2 || r == RA3 || r == RCON || r == RTA
    requires Execute(m, CaseInstr(k)) == Some(Set(m, r, x))
    ensures Valid(Set(m, r, x)) && Reaches(m, Set(m, r, x)) && In(j, Set(m, r, x), k + 1)
  {
    hide Execute, Reaches, Entered, CaseInstr;
    Goes(j, m, k, Set(m, r, x));
  }

  /** Entry a + n/2 of the n from a on is the pivot. */
  ghost predicate Part(j: Job, m: Machine, a: nat, n: nat) {
    Valid(m) && a + n <= |j.tab| && m.reg[RA2] == n && m.reg[RA3] == j.t + 12 * a
  }

  /** Instructions 4 to 6: the pivot, h being half of n. */
  lemma Pivot(j: Job, m: Machine, a: nat, n: nat, h: nat) returns (m': Machine)
    requires Entered(j) && In(j, m, INNER) && Part(j, m, a, n) && h == n / 2 < n
    ensures Reaches(m, m') && In(j, m', 7) && Part(j, m', a, n)
    ensures m'.reg[RA0] == h && m'.reg[RCON] == j.t + 12 * (a + h)
  {
    Bounds(j);
    hide Execute, Reaches, Entered, CaseInstr, In;
    var m1 := Halves(j, m, n);
    var m2 := Triples(j, m1, h);
    m' := Indexes(j, m2, 3 * h, j.t + 12 * a);
    Three(m, m1, m2, m');
  }

  lemma Three(m: Machine, m1: Machine, m2: Machine, m3: Machine)
    requires Valid(m) && Valid(m1) && Valid(m2) && Reaches(m, m1) && Reaches(m1, m2) && Reaches(m2, m3)
    ensures Reaches(m, m3)
  {
    hide Reaches;
    ReachesTrans(m, m1, m2);
    ReachesTrans(m, m2, m3);
  }

  lemma Halves(j: Job, m: Machine, n: nat) returns (m': Machine)
    requires Entered(j) && In(j, m, 4) && m.reg[RA2] == n
    ensures Reaches(m, m') && In(j, m', 5) && m' == Set(m, RA0, n / 2)
  {
    hide Execute, Reaches, Entered;
    m' := Set(m, RA0, n / 2);
    DpDoes(m, AL, MOV, 0, RA0, 10, RA2, n / 2, n / 2);
    Sets(j, m, 4, RA0, n / 2);
  }

  lemma Triples(j: Job, m: Machine, h: nat) returns (m': Machine)
    requires Entered(j) && In(j, m, 5) && m.reg[RA0] == h && 3 * h < WORD
    ensures Reaches(m, m') && In(j, m', 6) && m' == Set(m, RCON, 3 * h)
  {
    hide Execute, Reaches, Entered;
    assert Pow2(1) == 2;
    m' := Set(m, RCON, 3 * h);
    DpDoes(m, AL, ADD, RA0, RCON, 8, RA0, 2 * h, 3 * h);
    Sets(j, m, 5, RCON, 3 * h);
  }

  lemma Indexes(j: Job, m: Machine, i: nat, t: nat) returns (m': Machine)
    requires Entered(j) && In(j, m, 6) && m.reg[RCON] == i && m.reg[RA3] == t && t + 4 * i < WORD
    ensures Reaches(m, m') && In(j, m', 7) && m' == Set(m, RCON, t + 4 * i)
  {
    hide Execute, Reaches, Entered;
    assert Pow2(2) == 4 by { assert Pow2(1) == 2; }
    m' := Set(m, RCON, t + 4 * i);
    DpDoes(m, AL, ADD, RA3, RCON, 16, RCON, 4 * i, t + 4 * i);
    Sets(j, m, 6, RCON, t + 4 * i);
  }

  lemma Bounds(j: Job)
    requires Entered(j)
    ensures j.t % 4 == 0 && 0 <= j.t && j.t + 12 * |j.tab| + 16 < WORD
  {
  }

  /** Instructions 7 and 11: a word of the pivot. */
  lemma Reads(j: Job, m: Machine, k: nat, w: Word) returns (m': Machine)
    requires Entered(j) && In(j, m, k) && (k == 7 || k == 11)
    requires m.reg[RCON] + 8 < WORD && m.reg[RCON] % 4 == 0 && Has(m, m.reg[RCON] + k - 3, w)
    ensures Reaches(m, m') && In(j, m', k + 1) && m' == Set(m, RTA, w)
  {
    hide Execute, Reaches, Entered;
    m' := Set(m, RTA, w);
    ReadDoes(m, AL, RCON, RTA, k - 3, w);
    Sets(j, m, k, RTA, w);
  }

  /** Instructions 8 and 12: the value against it. */
  lemma Compares(j: Job, m: Machine, k: nat) returns (m': Machine)
    requires Entered(j) && In(j, m, k) && (k == 8 || k == 12)
    ensures Reaches(m, m') && In(j, m', k + 1) && m'.reg == m.reg
    ensures Cond(LT, m') <==> Signed(j.v) < Signed(m.reg[RTA])
  {
    assert m.reg[RA1] == j.v;
    FlagsOrder(m, m.reg[RA1], m.reg[RTA]);
    m' := SubFlags(m, m.reg[RA1], m.reg[RTA]).(pc := m.pc + 4);
    SameCond(LT, SubFlags(m, m.reg[RA1], m.reg[RTA]), m');
    hide Execute, Reaches, Entered, Signed, Cond;
    CmpDoes(m, RA1, RTA);
    Goes(j, m, k, m');
  }

  /** An instruction whose condition does not hold. */
  lemma Passes(j: Job, m: Machine, k: nat) returns (m': Machine)
    requires Entered(j) && In(j, m, k) && k < 22 && !Cond(CaseInstr(k).cc, m) && CaseInstr(k).Fits()
    ensures Reaches(m, m') && In(j, m', k + 1) && m' == m.(pc := m.pc + 4)
  {
    m' := m.(pc := m.pc + 4);
    assert Execute(m, CaseInstr(k)) == Some(m');
    hide Execute, Reaches, Entered, CaseInstr;
    Goes(j, m, k, m');
  }

  /** A branch. */
  lemma Branches(j: Job, m: Machine, k: nat, to: nat) returns (m': Machine)
    requires Entered(j) && In(j, m, k) && k < 22 && to < 22 && CaseInstr(k).Branch?
               && CaseInstr(k) == Branch(CaseInstr(k).cc, Back(k, to))
    requires 0 <= CaseInstr(k).cc < 16
    ensures Reaches(m, m') && m' == m.(pc := m'.pc) && In(j, m', if Cond(CaseInstr(k).cc, m) then to else k + 1)
  {
    hide Execute, Reaches, Entered, Cond, CaseInstr;
    var cc := CaseInstr(k).cc;
    m' := m.(pc := if Cond(cc, m) then m.pc + 4 * (to - k) else m.pc + 4);
    BranchDoes(m, cc, k, to);
    Goes(j, m, k, m');
  }

  /** Instructions 9 and 10 below the pivot: on with the first half. */
  lemma Below(j: Job, m: Machine) returns (m': Machine)
    requires Entered(j) && In(j, m, 9) && Cond(LT, m)
    ensures Reaches(m, m') && In(j, m', LOOP) && m'.reg == m.reg[RA2 := m.reg[RA0]]
  {
    hide Execute, Reaches, Entered, Cond;
    var m1 := Set(m, RA2, m.reg[RA0]);
    assert Pow2(0) == 1;
    DpDoes(m, LT, MOV, 0, RA2, 0, RA0, m.reg[RA0], m.reg[RA0]);
    Sets(j, m, 9, RA2, m.reg[RA0]);
    SameCond(LT, m, m1);
    m' := Branches(j, m1, 10, LOOP);
    ReachesTrans(m, m1, m');
  }

  /** The same not below the pivot. */
  lemma NotBelow(j: Job, m: Machine) returns (m': Machine)
    requires Entered(j) && In(j, m, 9) && !Cond(LT, m)
    ensures Reaches(m, m') && In(j, m', 11) && m' == m.(pc := m'.pc)
  {
    hide Execute, Reaches, Entered, Cond;
    var m1 := Passes(j, m, 9);
    SameCond(LT, m, m1);
    m' := Passes(j, m1, 10);
    ReachesTrans(m, m1, m');
  }

  /** Instruction 13 inside the range: out of the macro. */
  lemma Jumps(j: Job, m: Machine, w: Word) returns (m': Machine)
    requires Entered(j) && In(j, m, 13) && Cond(LT, m)
    requires m.reg[RCON] + 12 < WORD && m.reg[RCON] % 4 == 0 && Has(m, m.reg[RCON] + 12, w)
    ensures Reaches(m, m') && Kept(j, m') && m'.pc == w
  {
    m' := m.(pc := w);
    hide Execute, Reaches, Entered, Cond;
    ReadDoes(m, LT, RCON, R15, 12, w);
    Goes(j, m, 13, m');
  }

  /** Instructions 14 to 17 above the range: on with the second half, if there
      is anything in it. */
  lemma Above(j: Job, m: Machine, a: nat, n: nat, h: nat) returns (m': Machine)
    requires Entered(j) && In(j, m, 14) && Part(j, m, a, n) && h < n
    requires m.reg[RA0] == h && m.reg[RCON] == j.t + 12 * (a + h)
    ensures Reaches(m, m') && In(j, m', if n - h - 1 > 0 then INNER else OUT) && Part(j, m', a + h + 1, n - h - 1)
  {
    Bounds(j);
    hide Execute, Reaches, Entered, In, Cond;
    var m1 := Advances(j, m, j.t + 12 * (a + h));
    var m2 := Counts(j, m1, h);
    var m3 := Reduces(j, m2, n, h + 1);
    m' := Branches(j, m3, 17, INNER);
    Three(m, m1, m2, m3);
    ReachesTrans(m, m3, m');
  }

  lemma Advances(j: Job, m: Machine, x: nat) returns (m': Machine)
    requires Entered(j) && In(j, m, 14) && m.reg[RCON] == x && x + 12 < WORD
    ensures Reaches(m, m') && In(j, m', 15) && m' == Set(m, RA3, x + 12)
  {
    m' := Set(m, RA3, x + 12);
    assert Ror(12, 0) == 12;
    hide Execute, Reaches, Entered, Ror;
    ImmDoes(m, AL, ADD, RCON, RA3, 0, 12, x + 12);
    Sets(j, m, 14, RA3, x + 12);
  }

  lemma Counts(j: Job, m: Machine, h: nat) returns (m': Machine)
    requires Entered(j) && In(j, m, 15) && m.reg[RA0] == h && h + 1 < WORD
    ensures Reaches(m, m') && In(j, m', 16) && m' == Set(m, RTA, h + 1)
  {
    m' := Set(m, RTA, h + 1);
    assert Ror(1, 0) == 1;
    hide Execute, Reaches, Entered, Ror;
    ImmDoes(m, AL, ADD, RA0, RTA, 0, 1, h + 1);
    Sets(j, m, 15, RTA, h + 1);
  }

  lemma Reduces(j: Job, m: Machine, n: nat, h: nat) returns (m': Machine)
    requires Entered(j) && In(j, m, 16) && m.reg[RA2] == n && m.reg[RTA] == h && h <= n < HALF
    ensures Reaches(m, m') && In(j, m', 17) && m'.reg == m.reg[RA2 := n - h]
    ensures Cond(GT, m') <==> n - h > 0
  {
    hide Execute, Reaches, Entered, Cond;
    FlagsOrder(m, n, h);
    m' := SubFlags(m, n, h).(pc := m.pc + 4, reg := m.reg[RA2 := n - h]);
    SameCond(GT, SubFlags(m, n, h), m');
    SubDoes(m, RA2, RTA);
    Goes(j, m, 16, m');
  }

  /** Instructions 2 and 3: is there anything left? */
  lemma Tests(j: Job, m: Machine, n: nat) returns (m': Machine)
    requires Entered(j) && In(j, m, LOOP) && m.reg[RA2] == n < HALF
    ensures Reaches(m, m') && In(j, m', if n > 0 then INNER else OUT) && m'.reg == m.reg
  {
    FlagsOrder(m, n, 0);
    var m1 := SubFlags(m, n, 0).(pc := m.pc + 4);
    SameCond(LE, SubFlags(m, n, 0), m1);
    hide Execute, Reaches, Entered, Cond;
    CmpZeroDoes(m, RA2);
    Goes(j, m, 2, m1);
    m' := Branches(j, m1, 3, OUT);
    ReachesTrans(m, m1, m');
  }

  /** From m the macro gets to where the case leads. */
  ghost predicate Arrives(j: Job, m: Machine)
    requires Valid(m)
  {
    exists m' :: Reaches(m, m') && Kept(j, m') && m'.pc == Destination(j.tab, j.dflt, j.v)
  }

  lemma ArrivesBy(j: Job, m: Machine, m1: Machine)
    requires Valid(m) && Valid(m1) && Reaches(m, m1) && Arrives(j, m1)
    ensures Arrives(j, m)
  {
    hide Reaches, Destination, Kept;
    var m' :| Reaches(m1, m') && Kept(j, m') && m'.pc == Destination(j.tab, j.dflt, j.v);
    ReachesTrans(m, m1, m');
  }

  /** The value is not in a range before a or from b on. */
  ghost predicate Around(j: Job, a: nat, b: nat) {
    && (forall k :: 0 <= k < a && k < |j.tab| ==> Signed(j.tab[k].hi) <= Signed(j.v))
    && (forall k :: b <= k < |j.tab| ==> Signed(j.v) < Signed(j.tab[k].lo))
  }

  /** Instructions 4 to 8. */
  lemma Probe(j: Job, m: Machine, a: nat, n: nat, h: nat) returns (m': Machine)
    requires Entered(j) && In(j, m, INNER) && Part(j, m, a, n) && h == n / 2 < n
    ensures Reaches(m, m') && In(j, m', 9) && Part(j, m', a, n)
    ensures m'.reg[RA0] == h && m'.reg[RCON] == j.t + 12 * (a + h)
    ensures Cond(LT, m') <==> Signed(j.v) < Signed(j.tab[a + h].lo)
  {
    Row(j, m, a + h);
    hide Reaches, Entered, Cond, In, Signed;
    var m1 := Pivot(j, m, a, n, h);
    var m2 := Reads(j, m1, 7, j.tab[a + h].lo) by { Row(j, m1, a + h); }
    m' := Compares(j, m2, 8);
    Three(m, m1, m2, m');
  }

  lemma Row(j: Job, m: Machine, k: nat)
    requires Entered(j) && Kept(j, m) && k < |j.tab|
    ensures var p := j.t + 12 * k;
            && p + 16 < WORD && p % 4 == 0
            && Has(m, p + 4, j.tab[k].lo) && Has(m, p + 8, j.tab[k].hi) && Has(m, p + 12, j.tab[k].dst)
  {
    FourTwelves(j.t, k);
    InTable(j.m0, j.t, j.tab, j.dflt, k);
    hide Loaded, Macro, Table;
  }

  lemma InTable(m: Machine, t: int, tab: seq<Range>, dflt: Word, k: nat)
    requires Table(m, t, tab, dflt) && k < |tab|
    ensures t % 4 == 0 && 0 <= t && t + 12 * k + 16 < WORD
    ensures Has(m, t + 12 * k + 4, tab[k].lo) && Has(m, t + 12 * k + 8, tab[k].hi) && Has(m, t + 12 * k + 12, tab[k].dst)
  {
    hide Has;
  }

  lemma FourTwelves(t: int, k: int)
    requires t % 4 == 0
    ensures (t + 12 * k) % 4 == 0 && (t + 12 * k + 4) % 4 == 0
  {
    DivMod(t / 4 + 3 * k, 4, 0);
    DivMod(t / 4 + 3 * k + 1, 4, 0);
  }

  /** Instructions 11 and 12. */
  lemma ProbeAgain(j: Job, m: Machine, a: nat, n: nat, h: nat) returns (m': Machine)
    requires Entered(j) && In(j, m, 11) && Part(j, m, a, n) && h < n
    requires m.reg[RA0] == h && m.reg[RCON] == j.t + 12 * (a + h)
    ensures Reaches(m, m') && In(j, m', 13) && Part(j, m', a, n)
    ensures m'.reg[RA0] == h && m'.reg[RCON] == j.t + 12 * (a + h)
    ensures Cond(LT, m') <==> Signed(j.v) < Signed(j.tab[a + h].hi)
  {
    Row(j, m, a + h);
    hide Reaches, Entered, Cond, In, Signed;
    var m1 := Reads(j, m, 11, j.tab[a + h].hi);
    m' := Compares(j, m1, 12);
    ReachesTrans(m, m1, m');
  }

  /** Instructions 18 to 21: nothing was left. */
  lemma Ends(j: Job, m: Machine, a: nat)
    requires Entered(j) && In(j, m, OUT) && Around(j, a, a)
    ensures Arrives(j, m)
  {
    DestinationNone(j.tab, j.dflt, j.v);
    hide Reaches, Destination, Around;
    var m' := Default(j, m);
  }

  lemma Default(j: Job, m: Machine) returns (m': Machine)
    requires Entered(j) && In(j, m, OUT)
    ensures Reaches(m, m') && Kept(j, m') && m'.pc == j.dflt
  {
    Bounds(j);
    Edges(j, m);
    var n := |j.tab|;
    hide Reaches, Entered, In, Execute;
    var m1 := Recalls(j, m, n);
    var m2 := TriplesAgain(j, m1, n);
    m' := Leaps(j, m2, n);
    Three(m, m1, m2, m');
  }

  lemma Edges(j: Job, m: Machine)
    requires Entered(j) && Kept(j, m)
    ensures Has(m, j.t, |j.tab|) && Has(m, j.t + 12 * |j.tab| + 4, j.dflt)
  {
  }

  lemma Recalls(j: Job, m: Machine, n: nat) returns (m': Machine)
    requires Entered(j) && In(j, m, 18) && n < WORD && Has(m, j.t, n) && j.t < WORD && j.t % 4 == 0
    ensures Reaches(m, m') && In(j, m', 19) && m' == Set(m, RA2, n)
  {
    m' := Set(m, RA2, n);
    hide Execute, Reaches, Entered;
    ReadDoes(m, AL, RLINK, RA2, 0, n);
    Sets(j, m, 18, RA2, n);
  }

  lemma TriplesAgain(j: Job, m: Machine, n: nat) returns (m': Machine)
    requires Entered(j) && In(j, m, 19) && m.reg[RA2] == n && 3 * n < WORD
    ensures Reaches(m, m') && In(j, m', 20) && m' == Set(m, RA2, 3 * n)
  {
    hide Execute, Reaches, Entered;
    assert Pow2(1) == 2;
    m' := Set(m, RA2, 3 * n);
    DpDoes(m, AL, ADD, RA2, RA2, 8, RA2, 2 * n, 3 * n);
    Sets(j, m, 19, RA2, 3 * n);
  }

  /** Instructions 20 and 21: the word behind the ranges. */
  lemma Leaps(j: Job, m: Machine, n: nat) returns (m': Machine)
    requires Entered(j) && In(j, m, 20) && m.reg[RA2] == 3 * n && j.t + 12 * n + 4 < WORD && j.t % 4 == 0
    requires Has(m, j.t + 12 * n + 4, j.dflt)
    ensures Reaches(m, m') && Kept(j, m') && m'.pc == j.dflt
  {
    Bounds(j);
    FourTwelves(j.t, n);
    hide Execute, Reaches, Entered, In, CaseInstr;
    var m1 := LastIndex(j, m, 3 * n);
    m' := Last(j, m1);
    ReachesTrans(m, m1, m');
  }

  lemma LastIndex(j: Job, m: Machine, y: int) returns (m': Machine)
    requires Entered(j) && In(j, m, 20) && m.reg[RA2] == y && j.t + 4 * y < WORD
    ensures Reaches(m, m') && Kept(j, m') && m'.pc == Addr(j.base, j.s + 21) && m'.reg[RLINK] == j.t + 4 * y
  {
    assert Pow2(2) == 4 by { assert Pow2(1) == 2; }
    Bounds(j);
    m' := Set(m, RLINK, j.t + 4 * y);
    hide Execute, Reaches, Entered;
    DpDoes(m, AL, ADD, RLINK, RLINK, 16, RA2, 4 * y, j.t + 4 * y);
    Goes(j, m, 20, m');
  }

  lemma Last(j: Job, m: Machine) returns (m': Machine)
    requires Entered(j) && Kept(j, m) && m.pc == Addr(j.base, j.s + 21)
    requires m.reg[RLINK] + 4 < WORD && (m.reg[RLINK] + 4) % 4 == 0 && Has(m, m.reg[RLINK] + 4, j.dflt)
    ensures Reaches(m, m') && Kept(j, m') && m'.pc == j.dflt
  {
    m' := m.(pc := j.dflt);
    hide Execute, Reaches, Entered;
    ReadDoes(m, AL, RLINK, R15, 4, j.dflt);
    Goes(j, m, 21, m');
  }

  /** The search by halves, over n ranges from a on. */
  lemma {:induction false} Search(j: Job, m: Machine, a: nat, n: nat)
    requires Entered(j) && Ordered(j.tab) && In(j, m, INNER) && Part(j, m, a, n) && n > 0 && Around(j, a, a + n)
    ensures Arrives(j, m)
    decreases n, 1
  {
    var h := n / 2;
    var x := j.tab[a + h];
    AroundHalf(j, a, h);
    hide Reaches, Entered, Cond, In, Signed, Ordered, Around, Destination, Arrives;
    var m1 := Probe(j, m, a, n, h);
    if Cond(LT, m1) {
      var m2 := Below(j, m1);
      Rest(j, m2, a, h);
      ReachesTrans(m, m1, m2);
      ArrivesBy(j, m, m2);
    } else {
      var m2 := NotBelow(j, m1);
      ReachesTrans(m, m1, m2);
      Upper(j, m2, a, n, h);
      ArrivesBy(j, m, m2);
    }
  }

  /** Back at the loop with n ranges. */
  lemma {:induction false} Rest(j: Job, m: Machine, a: nat, n: nat)
    requires Entered(j) && Ordered(j.tab) && In(j, m, LOOP) && Part(j, m, a, n) && Around(j, a, a + n)
    ensures Arrives(j, m)
    decreases n, 2
  {
    Bounds(j);
    hide Reaches, Entered, Cond, In, Ordered, Around, Arrives;
    var m1 := Tests(j, m, n);
    if n > 0 {
      Search(j, m1, a, n);
    } else {
      Ends(j, m1, a);
    }
    ArrivesBy(j, m, m1);
  }

  /** The pivot's range is not above the value. */
  lemma {:induction false} Upper(j: Job, m: Machine, a: nat, n: nat, h: nat)
    requires Entered(j) && Ordered(j.tab) && In(j, m, 11) && Part(j, m, a, n) && h < n && Around(j, a, a + n)
    requires m.reg[RA0] == h && m.reg[RCON] == j.t + 12 * (a + h) && Signed(j.tab[a + h].lo) <= Signed(j.v)
    ensures Arrives(j, m)
    decreases n, 0
  {
    AroundHalf(j, a, h);
    hide Reaches, Entered, Cond, In, Signed, Ordered, Around, Arrives;
    var m1 := ProbeAgain(j, m, a, n, h);
    if Cond(LT, m1) {
      Found(j, m1, a + h);
      ArrivesBy(j, m, m1);
    } else {
      var m2 := Passes(j, m1, 13);
      var m3 := Above(j, m2, a, n, h);
      Three(m, m1, m2, m3);
      if n - h - 1 > 0 {
        Search(j, m3, a + h + 1, n - h - 1);
      } else {
        Ends(j, m3, a + n);
      }
      ArrivesBy(j, m, m3);
    }
  }

  lemma Found(j: Job, m: Machine, k: nat)
    requires Entered(j) && Ordered(j.tab) && In(j, m, 13) && Cond(LT, m) && k < |j.tab| && Holds(j.tab[k], j.v)
    requires m.reg[RCON] == j.t + 12 * k
    ensures Arrives(j, m)
  {
    DestinationIs(j.tab, j.dflt, j.v, k);
    Row(j, m, k);
    hide Reaches, Entered, Cond, In, Ordered, Destination;
    var m' := Jumps(j, m, j.tab[k].dst);
  }

  /** What the order of the ranges says about those on both sides of a pivot. */
  lemma AroundHalf(j: Job, a: nat, h: nat)
    requires Ordered(j.tab) && a + h < |j.tab|
    ensures Signed(j.v) < Signed(j.tab[a + h].lo) && Around(j, a, |j.tab|) ==> Around(j, a, a + h)
    ensures Signed(j.tab[a + h].hi) <= Signed(j.v) ==> forall b :: Around(j, a, b) ==> Around(j, a + h + 1, b)
  {
  }

  /** The case statement: entered with the value in RA1 and the table in RA3, the
      macro ends where the table says, and no register but its own has changed. */
  lemma CaseLeads(j: Job, m: Machine)
    requires Entered(j) && Ordered(j.tab) && j.m0 == m && m.pc == Addr(j.base, j.s) && m.reg[RA3] == j.t
    ensures Arrives(j, m)
  {
    var n := |j.tab|;
    assert Around(j, 0, n);
    hide Reaches, Entered, Around, Ordered, Arrives;
    var m1 := Starts(j, m);
    Rest(j, m1, 0, n);
    ArrivesBy(j, m, m1);
  }

  /** Instructions 0 and 1. */
  lemma Starts(j: Job, m: Machine) returns (m': Machine)
    requires Entered(j) && j.m0 == m && m.pc == Addr(j.base, j.s) && m.reg[RA3] == j.t
    ensures Reaches(m, m') && In(j, m', LOOP) && Part(j, m', 0, |j.tab|)
  {
    hide Reaches, Entered, In;
    var m1 := TakesCount(j, m);
    m' := TakesTable(j, m1);
    ReachesTrans(m, m1, m');
  }

  lemma TakesCount(j: Job, m: Machine) returns (m': Machine)
    requires Entered(j) && j.m0 == m && m.pc == Addr(j.base, j.s) && m.reg[RA3] == j.t
    ensures Reaches(m, m') && Kept(j, m') && m'.pc == Addr(j.base, j.s + 1) && m'.reg == m.reg[RA2 := |j.tab|]
  {
    Bounds(j);
    Edges(j, m);
    m' := Set(m, RA2, |j.tab|);
    hide Reaches, Entered, Execute;
    ReadDoes(m, AL, RA3, RA2, 0, |j.tab|);
    Goes(j, m, 0, m');
  }

  lemma TakesTable(j: Job, m: Machine) returns (m': Machine)
    requires Entered(j) && Kept(j, m) && m.pc == Addr(j.base, j.s + 1) && m.reg[RA3] == j.t
    ensures Reaches(m, m') && In(j, m', LOOP) && m'.reg == m.reg[RLINK := j.t]
  {
    assert Pow2(0) == 1;
    m' := Set(m, RLINK, m.reg[RA3]);
    hide Reaches, Entered, Execute;
    DpDoes(m, AL, MOV, 0, RLINK, 0, RA3, m.reg[RA3], m.reg[RA3]);
    Goes(j, m, 1, m');
  }
}
