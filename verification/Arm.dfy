/**
 * Just enough of the ARM architecture to run a hooked function: B and LDR (literal) into the PC,
 * after sections A8.8.18 and A8.8.64 of the ARMv7-A/R Architecture Reference Manual (DDI 0406C).
 */
module Arm {
  import opened Basics

  type Word = x: int | 0 <= x < WORD

  /** The word at each (word-aligned) address. */
  type Memory = int -> Word

  function Put(m: Memory, a: int, w: Word): (r: Memory)
    ensures forall x :: r(x) == if x == a then w else m(x)
  {
    x => if x == a then w else m(x)
  }

  datatype Instr = Branch(imm24: int) | LoadPc(add: bool, imm12: int) | Other

  function Decode(w: Word): Instr {
    if w / 0x100_0000 == 0xEA then Branch(w % 0x100_0000)
    else if w / 0x1000 == 0xE51FF then LoadPc(false, w % 0x1000)
    else if w / 0x1000 == 0xE59FF then LoadPc(true, w % 0x1000)
    else Other
  }

  /** `SignExtend(imm24:'00', 32)`, as a signed number. */
  function Offset(imm24: int): int {
    if 4 * imm24 < 0x200_0000 then 4 * imm24 else 4 * imm24 - 0x400_0000
  }

  function Wrap(x: int): Word {
    x % WORD
  }

  /** The registers, flags and data memory are one value `M`; what other instructions do to it is left open. */
  datatype Cpu<M> = Cpu(machine: M, pc: Word)

  /** One instruction. `None` when a loaded address would leave ARM state. The PC reads as its address plus 8. */
  function Step<M>(exec: (Word, M, Word) -> Cpu<M>, mem: Memory, cpu: Cpu<M>): Option<Cpu<M>> {
    var w := mem(cpu.pc);
    match Decode(w)
    case Branch(imm24) => Some(cpu.(pc := Wrap(cpu.pc + 8 + Offset(imm24))))
    case LoadPc(add, imm12) =>
      var to := mem(Wrap(cpu.pc + 8 + (if add then imm12 else -imm12)));
      if to % 4 == 0 then Some(cpu.(pc := to)) else None
    case Other => Some(exec(w, cpu.machine, cpu.pc))
  }

  /** `w`, wherever it stands, goes on to the next word. */
  ghost predicate FallsThrough<M(!new)>(exec: (Word, M, Word) -> Cpu<M>, w: Word) {
    forall m: M, p: Word :: exec(w, m, p).pc == Wrap(p + 4)
  }

  // The two words that the hook code composes

  /** `0xea000000 + (0xffffff & (newfunc - (target + 8)) / 4)` in unsigned arithmetic. */
  function BranchWord(target: Word, newfunc: Word): Word {
    0xea00_0000 + (Wrap(newfunc - (target + 8)) / 4) % 0x100_0000
  }

  const JUMP_WORD: Word := 0xe51f_f004

  /** The distance the branch has to cover, as the signed number that the processor sees. */
  function Displacement(target: Word, newfunc: Word): int {
    var d := Wrap(newfunc - (target + 8));
    if d < 0x8000_0000 then d else d - WORD
  }

  predicate InBranchRange(target: Word, newfunc: Word) {
    -0x200_0000 <= Displacement(target, newfunc) < 0x200_0000
  }

  lemma BranchWordDecodes(target: Word, newfunc: Word)
    ensures Decode(BranchWord(target, newfunc)) == Branch((Wrap(newfunc - (target + 8)) / 4) % 0x100_0000)
  {
  }

  lemma WrapIsUnique(x: int, k: int)
    requires 0 <= x + k * WORD < WORD
    ensures Wrap(x) == x + k * WORD
  {
  }

  /** The 26-bit offset is the whole displacement exactly when the distance is word-aligned and in range. */
  lemma OffsetIsDisplacement(d: Word)
    ensures var s := if d < 0x8000_0000 then d else d - WORD;
            Offset((d / 4) % 0x100_0000) == s <==> d % 4 == 0 && -0x200_0000 <= s < 0x200_0000
  {
    var q := d / 4;
    var k := q / 0x100_0000;
    assert q == k * 0x100_0000 + q % 0x100_0000;
    assert d == 4 * q + d % 4;
  }

  /** The patched word sends the processor to `newfunc` exactly when that is a word-aligned address in branch range. */
  lemma BranchLands(target: Word, newfunc: Word)
    requires target % 4 == 0
    ensures Wrap(target + 8 + Offset(Decode(BranchWord(target, newfunc)).imm24)) == newfunc <==>
            newfunc % 4 == 0 && InBranchRange(target, newfunc)
  {
    var d, s := Wrap(newfunc - (target + 8)), Displacement(target, newfunc);
    BranchWordDecodes(target, newfunc);
    OffsetIsDisplacement(d);
    var off := Offset((d / 4) % 0x100_0000);
    SameTarget(target + 8, off, s, newfunc, d);
    assert d % 4 == newfunc % 4 by { AlignedDistance(target, newfunc, d); }
  }

  lemma AlignedDistance(target: Word, newfunc: Word, d: Word)
    requires target % 4 == 0 && d == Wrap(newfunc - (target + 8))
    ensures d % 4 == newfunc % 4
  {
    var k := (newfunc - (target + 8)) / WORD;
    var q := target / 4 + 2 + k * 0x4000_0000;
    assert d == newfunc - 4 * q;
  }

  /** Congruent numbers less than a word apart are equal. */
  lemma CongruentIsEqual(x: int, y: int)
    requires -WORD < x - y < WORD && Wrap(x) == Wrap(y)
    ensures x == y
  {
    assert x == (x / WORD) * WORD + Wrap(x) && y == (y / WORD) * WORD + Wrap(y);
  }

  lemma WrapShift(x: int, k: int)
    ensures Wrap(x + k * WORD) == Wrap(x)
  {
    WrapIsUnique(x + k * WORD, -(x / WORD) - k);
    WrapIsUnique(x, -(x / WORD));
  }

  /** Two offsets of less than half the address space lead to the same place only if they are equal. */
  lemma SameTarget(base: int, off: int, s: int, newfunc: Word, d: Word)
    requires d == Wrap(newfunc - base) && s == (if d < 0x8000_0000 then d else d - WORD)
    requires -0x200_0000 <= off < 0x200_0000
    ensures Wrap(base + off) == newfunc <==> off == s
  {
    var k := (newfunc - base) / WORD;
    var j := if d < 0x8000_0000 then -k else -k - 1;
    assert base + s == newfunc + j * WORD;
    WrapShift(newfunc, j);
    assert Wrap(base + s) == newfunc;
    if Wrap(base + off) == newfunc {
      CongruentIsEqual(base + off, base + s);
    }
  }
}
