/** The part of the BackSlash 9 instruction set that compiled programs use, with a small-step
    semantics. R15 designates the next instruction, CPY to R15 and JMP save it in R11. */
module Bs9Isa {
  import opened Options
  import opened Words

  /** R0..R11 can be written; R12 and R13 read as zero and one. */
  type Dst = r: nat | r < 12
  type Src = r: nat | r < 14

  const ZERO: Src := 12
  const ONE: Src := 13
  const LINK: Dst := 11
  const SP: Dst := 10
  const FP: Dst := 9

  type Imm12 = n: nat | n < 4096

  type Offset = x: int | -128 <= x <= 127

  datatype Cond = Al | Eq | Ne | Ge | Ls

  datatype Instr =
    | Ar0(imm: Imm12, shift: bool)
    | CpyRR(d: Dst, s: Src)
    | CpyRM(d: Dst, a: Src)
    | CpyMR(b: Dst, s: Src)
    | AddRR(d: Dst, s: Src)
    | SubRR(d: Dst, s: Src)
    | AndRR(d: Dst, s: Src)
    | OrRR(d: Dst, s: Src)
    | XorR0(s: Src)
    | CpyPc(s: Src)
    | Jmp(cond: Cond, off: Offset)

  type Regs = r: seq<Word> | |r| == 12 witness seq(12, i => 0)

  datatype State = State(pc: Word, regs: Regs, z: bool, s: bool, mem: Memory) {
    function Reg(r: Src): Word {
      if r == ZERO then 0 else if r == ONE then 1 else regs[r]
    }

    function Set(r: Dst, v: Word): State {
      this.(regs := regs[r := v])
    }

    /** Result of an arithmetic or logic instruction: destination and the Z and S flags. */
    function Alu(r: Dst, v: Word): State {
      this.(regs := regs[r := v], z := v == 0, s := Negative(v))
    }

    predicate Holds(c: Cond) {
      match c
      case Al => true
      case Eq => z
      case Ne => !z
      case Ge => !s
      case Ls => s
    }

    /** The instruction accesses no memory below an address. */
    predicate Clear(i: Instr, len: nat) {
      (i.CpyRM? ==> Reg(i.a) >= len) && (i.CpyMR? ==> Reg(i.b) >= len)
    }

    function Branch(target: Word): State {
      this.(pc := target, regs := regs[LINK := Add(pc, 1)])
    }
  }

  /** Straight-line effect of an instruction, without the program counter. */
  function Effect(i: Instr, s: State): State
    requires !i.CpyPc? && !i.Jmp?
  {
    match i
    case Ar0(imm, shift) => s.Set(0, (if shift then imm * 16 else imm) % 0x10000)
    case CpyRR(d, r) => s.Set(d, s.Reg(r))
    case CpyRM(d, a) => s.Set(d, s.mem[s.Reg(a)])
    case CpyMR(a, r) => s.(mem := s.mem[s.Reg(a) := s.Reg(r)])
    case AddRR(d, r) => s.Alu(d, Add(s.Reg(d), s.Reg(r)))
    case SubRR(d, r) => s.Alu(d, Sub(s.Reg(d), s.Reg(r)))
    case AndRR(d, r) => s.Alu(d, Bits(AndF, s.Reg(d), s.Reg(r)))
    case OrRR(d, r) => s.Alu(d, Bits(OrF, s.Reg(d), s.Reg(r)))
    case XorR0(r) => s.Set(0, Bits(XorF, s.Reg(0), s.Reg(r)))
  }

  /** One instruction. There is no step outside the code, and none whose data access falls inside it:
      what such an access does depends on the encoding of the program. */
  function Step(code: seq<Instr>, s: State): Option<State>
  {
    if s.pc >= |code| then None else
    var i := code[s.pc];
    if !s.Clear(i, |code|) then None else
    match i
    case CpyPc(r) => Some(s.Branch(s.Reg(r)))
    case Jmp(c, off) =>
      Some(if s.Holds(c) then s.Branch((s.pc + 1 + off) % 0x10000) else s.(pc := Add(s.pc, 1)))
    case _ => Some(Effect(i, s).(pc := Add(s.pc, 1)))
  }

  function Run(code: seq<Instr>, s: State, n: nat): Option<State>
    decreases n
  {
    if n == 0 then Some(s) else
    var t := Step(code, s);
    if t.None? then None else Run(code, t.value, n - 1)
  }

  ghost predicate Reaches(code: seq<Instr>, s: State, t: State)
  {
    exists n: nat :: Run(code, s, n) == Some(t)
  }

  lemma {:induction false} RunCompose(code: seq<Instr>, s: State, n: nat, t: State, m: nat)
    requires Run(code, s, n) == Some(t)
    ensures Run(code, s, n + m) == Run(code, t, m)
    decreases n
  {
    if n > 0 {
      RunCompose(code, Step(code, s).value, n - 1, t, m);
    }
  }

  lemma Trans(code: seq<Instr>, s: State, t: State, u: State)
    requires Reaches(code, s, t) && Reaches(code, t, u)
    ensures Reaches(code, s, u)
  {
    var n: nat :| Run(code, s, n) == Some(t);
    var m: nat :| Run(code, t, m) == Some(u);
    RunCompose(code, s, n, t, m);
  }

  lemma Here(code: seq<Instr>, s: State)
    ensures Reaches(code, s, s)
  {
    assert Run(code, s, 0) == Some(s);
  }

  /** Extend a run by the instruction at its end. */
  lemma Next(code: seq<Instr>, s0: State, s: State) returns (t: State)
    requires Reaches(code, s0, s) && Step(code, s).Some?
    ensures Reaches(code, s0, t) && Step(code, s) == Some(t)
  {
    t := Step(code, s).value;
    assert Run(code, t, 0) == Some(t);
    assert Run(code, s, 1) == Some(t);
    Trans(code, s0, s, t);
  }

  lemma {:induction false} RunSuffix(code: seq<Instr>, s: State, n: nat, t: State, m: nat, u: State)
    requires n <= m && Run(code, s, n) == Some(t) && Run(code, s, m) == Some(u)
    ensures Run(code, t, m - n) == Some(u)
  {
    RunCompose(code, s, n, t, m - n);
  }

  /** The machine is deterministic: a run that can go no further has one end. */
  lemma StuckIsUnique(code: seq<Instr>, s: State, t: State, u: State)
    requires Reaches(code, s, t) && Reaches(code, s, u)
    requires Step(code, t).None? && Step(code, u).None?
    ensures t == u
  {
    var n: nat :| Run(code, s, n) == Some(t);
    var m: nat :| Run(code, s, m) == Some(u);
    if n <= m {
      RunSuffix(code, s, n, t, m, u);
    } else {
      RunSuffix(code, s, m, u, n, t);
    }
  }
}
