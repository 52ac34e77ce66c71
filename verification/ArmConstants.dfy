/**
 Immediate operands in the ARM code generator (libinterp/comp-arm.c:363-374): a
 byte rotated by an even number of places, and how the disassembler reads it.
 */
module ArmConstants {
  import opened Basics
  import opened Words
  import opened ArmMachine

  // ------------------------------------------------------------------
  // Rotated immediates

  function Rol2(v: Word): (r: Word) {
    (v % 0x4000_0000) * 4 + v / 0x4000_0000
  }

  function Rol(v: Word, k: nat): Word {
    if k == 0 then v else Rol2(Rol(v, k - 1))
  }

  lemma RotateBack(v: Word)
    ensures Ror2(Rol2(v)) == v && Rol2(Ror2(v)) == v
  {
    DivMod(v % 0x4000_0000, 4, v / 0x4000_0000);
    DivMod(v % 4, 0x4000_0000, v / 4);
  }

  lemma {:induction false} RorFirst(v: Word, k: nat)
    ensures Ror(Ror2(v), k) == Ror(v, k + 1)
  {
    hide Ror2;
    if k > 0 { RorFirst(v, k - 1); }
  }

  lemma {:induction false} RolFirst(v: Word, k: nat)
    ensures Rol(Rol2(v), k) == Rol(v, k + 1)
  {
    hide Rol2;
    if k > 0 { RolFirst(v, k - 1); }
  }

  lemma {:induction false} RorOfRol(v: Word, k: nat)
    ensures Ror(Rol(v, k), k) == v && Rol(Ror(v, k), k) == v
  {
    hide Ror2, Rol2;
    if k > 0 {
      RorFirst(Rol(v, k), k - 1);
      RotateBack(Rol(v, k - 1));
      RorOfRol(v, k - 1);
      RolFirst(Ror(v, k), k - 1);
      RotateBack(Ror(v, k - 1));
    }
  }

  /** v is an 8-bit number rotated right by twice i. */
  predicate Rotated(v: Word, i: nat, b: int) {
    0 <= b < 256 && Ror(b, i) == v
  }

  /** `immrot`: the operand field for v, with the bit that says it is one, and
      zero exactly when there is none. */
  method ImmRot(v0: Word) returns (w: int)
    ensures w == 0 || (exists i, b :: 0 <= i < 16 && Rotated(v0, i, b) && w == i * 256 + b + 0x200_0000)
    ensures w == 0 ==> forall i, b :: 0 <= i < 16 ==> !Rotated(v0, i, b)
  {
    var v := v0;
    hide Rol2, Ror2;
    for i := 0 to 16
      invariant v == Rol(v0, i)
      invariant forall j, b :: 0 <= j < i ==> !Rotated(v0, j, b)
    {
      if v < 256 {
        RorOfRol(v0, i);
        assert Rotated(v0, i, v);
        return i * 256 + v + 0x200_0000;
      }
      forall b ensures !Rotated(v0, i, b) {
        if 0 <= b < 256 { RorOfRol(b, i); }
      }
      v := Rol2(v);
    }
    return 0;
  }

  /** The operand as the disassembler reads it (libinterp/das-arm.c:184-190). */
  method DasImm(w: Word) returns (imm: Word)
    ensures imm == Ror(w % 256, (w / 256) % 16)
  {
    hide Ror2;
    var v: Word, c := w % 256, (w / 256) % 16;
    ghost var c0 := c;
    while c > 0
      invariant 0 <= c <= c0
      invariant v == Ror(w % 256, c0 - c)
    {
      v := Ror2(v);
      c := c - 1;
    }
    return v;
  }

  /** Joining the operand field to the instruction. */
  lemma Joined(x: Instr, ro: int, imm: int)
    requires x.Dpi? && x.Fits() && x.ro == 0 && x.imm == 0 && 0 <= ro < 16 && 0 <= imm < 256
    ensures Encode(x) + ro * 256 + imm == Encode(x.(ro := ro, imm := imm))
  {
  }

  lemma OperandIs(x: Instr)
    requires x.Dpi? && x.Fits()
    ensures Encode(x) % 256 == x.imm && (Encode(x) / 256) % 16 == x.ro
  {
    var lo := x.ro * 256 + x.imm;
    var w := Encode(x);
    Split(x.cc, 1, x.op * 2 + Bit(x.s), x.rn, x.rd, lo, w);
    hide Encode;
    Low(w, w / 4096, lo);
  }

  /** The disassembler shows the constant that was encoded. */
  method DasShows(cc: int, op: int, rn: int, rd: int, v: Word) returns (shown: Option<Word>)
    requires Dpi(cc, op, false, rn, rd, 0, 0).Fits()
    ensures shown.Some? ==> shown.value == v
    ensures shown.None? <==> forall i, b :: 0 <= i < 16 ==> !Rotated(v, i, b)
  {
    var u := ImmRot(v);
    if u == 0 { return None; }
    hide Ror, Encode;
    var w := Encode(Dpi(cc, op, false, rn, rd, 0, 0)) + u - 0x200_0000;
    ghost var i, b :| 0 <= i < 16 && Rotated(v, i, b) && u == i * 256 + b + 0x200_0000;
    Joined(Dpi(cc, op, false, rn, rd, 0, 0), i, b);
    OperandIs(Dpi(cc, op, false, rn, rd, i, b));
    var imm := DasImm(w);
    shown := Some(imm);
  }
}
