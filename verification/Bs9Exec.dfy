/** What the compiler's templates do when they run. Each lemma extends a run of the machine. */
module Bs9Exec {
  import opened Words
  import opened Bs9Isa
  import opened Bs9Ops
  import opened Bs9Source
  import opened Bs9Gen

  /** A run has come from s0 to s, in code that leaves the halt address free. */
  ghost predicate Came(code: seq<Instr>, s0: State, s: State) {
    |code| <= 0xFFFF && Reaches(code, s0, s)
  }

  lemma CameFits(code: seq<Instr>, s0: State, s: State)
    requires Came(code, s0, s)
    ensures |code| <= 0xFFFF
  {
  }

  lemma StepOk(code: seq<Instr>, s0: State, s: State, i: Instr) returns (t: State)
    requires Came(code, s0, s) && s.pc < |code| && code[s.pc] == i
    requires !i.CpyPc? && !i.Jmp?
    requires s.Clear(i, |code|)
    ensures Came(code, s0, t) && t == Effect(i, s).(pc := s.pc + 1)
  {
    t := Next(code, s0, s);
  }

  lemma JumpOk(code: seq<Instr>, s0: State, s: State, i: Instr) returns (t: State)
    requires Came(code, s0, s) && s.pc < |code| && code[s.pc] == i
    requires i.CpyPc? || i.Jmp?
    ensures Came(code, s0, t)
    ensures i.CpyPc? ==> t == s.Branch(s.Reg(i.s))
    ensures i.Jmp? && s.Holds(i.cond) ==> t == s.Branch((s.pc + 1 + i.off) % 0x10000)
    ensures i.Jmp? && !s.Holds(i.cond) ==> t == s.(pc := s.pc + 1)
  {
    t := Next(code, s0, s);
  }

  /** Everything but R0, R1, R2, R8, R11, the flags and the program counter is the same. */
  predicate Scratch(s: State, t: State) {
    t.regs[FP] == s.regs[FP] && t.regs[SP] == s.regs[SP] && t.mem == s.mem
  }

  lemma ConstOk(code: seq<Instr>, s0: State, s: State, v: Word) returns (t: State)
    requires Came(code, s0, s) && At(code, s.pc, Const(v))
    ensures Came(code, s0, t) && t.pc == s.pc + 4
    ensures t.regs == s.regs[0 := v][1 := v / 16 * 16] && t.mem == s.mem
  {
    hide Bits, Came;
    CameFits(code, s0, s);
    OrNibbles(v);
    t := StepOk(code, s0, s, Ar0(v / 16, true));
    t := StepOk(code, s0, t, CpyRR(1, 0));
    t := StepOk(code, s0, t, Ar0(v % 16, false));
    t := StepOk(code, s0, t, OrRR(0, 1));
  }

  lemma GotoOk(code: seq<Instr>, s0: State, s: State, target: Word) returns (t: State)
    requires Came(code, s0, s) && At(code, s.pc, Goto(target))
    ensures Came(code, s0, t) && t.pc == target && Scratch(s, t)
    ensures t.regs[0] == target && t.regs[LINK] == s.pc + 5
  {
    AtSlice(code, s.pc, Const(target), [CpyPc(0)]);
    t := ConstOk(code, s0, s, target);
    t := JumpOk(code, s0, t, CpyPc(0));
  }

  lemma PushRegOk(code: seq<Instr>, s0: State, s: State, r: Dst) returns (t: State)
    requires Came(code, s0, s) && s.regs[SP] > |code| && r != SP
    requires s.pc + 2 <= |code| && code[s.pc] == SubRR(SP, ONE) && code[s.pc + 1] == CpyMR(SP, r)
    ensures Came(code, s0, t) && t.pc == s.pc + 2
    ensures t.regs == s.regs[SP := s.regs[SP] - 1]
    ensures t.mem == s.mem[s.regs[SP] - 1 := s.regs[r]]
  {
    hide Bits;
    t := StepOk(code, s0, s, SubRR(SP, ONE));
    t := StepOk(code, s0, t, CpyMR(SP, r));
  }

  lemma PushOk(code: seq<Instr>, s0: State, s: State) returns (t: State)
    requires Came(code, s0, s) && At(code, s.pc, Push)
    requires s.regs[SP] > |code|
    ensures Came(code, s0, t) && t.pc == s.pc + 2
    ensures t.regs == s.regs[SP := s.regs[SP] - 1]
    ensures t.mem == s.mem[s.regs[SP] - 1 := s.regs[0]]
  {
    t := PushRegOk(code, s0, s, 0);
  }

  lemma PopOk(code: seq<Instr>, s0: State, s: State, r: Dst) returns (t: State)
    requires Came(code, s0, s) && At(code, s.pc, Pop(r))
    requires |code| <= s.regs[SP] < 0xFFFF && r != SP
    ensures Came(code, s0, t) && t.pc == s.pc + 2
    ensures t.regs == s.regs[r := s.mem[s.regs[SP]]][SP := s.regs[SP] + 1]
    ensures t.mem == s.mem
  {
    hide Bits;
    t := StepOk(code, s0, s, CpyRM(r, SP));
    t := StepOk(code, s0, t, AddRR(SP, ONE));
  }

  lemma ConstThenSkip(code: seq<Instr>, s0: State, s: State, v: Word, off: Offset) returns (t: State)
    requires Came(code, s0, s) && At(code, s.pc, ConstSkip(v, off))
    requires 0 <= off && s.pc + 5 + off <= |code|
    ensures Came(code, s0, t) && t.pc == s.pc + 5 + off && Scratch(s, t) && t.regs[0] == v
  {
    AtSlice(code, s.pc, Const(v), [Jmp(Al, off)]);
    t := ConstOk(code, s0, s, v);
    t := JumpOk(code, s0, t, Jmp(Al, off));
  }

  lemma EitherOk(code: seq<Instr>, s0: State, s: State, pos: nat, v: Word, w: Word) returns (t: State)
    requires Came(code, s0, s) && At(code, pos, Either(v, w)) && (s.pc == pos || s.pc == pos + 5)
    ensures Came(code, s0, t) && t.pc == pos + 9 && Scratch(s, t)
    ensures t.regs[0] == if s.pc == pos then v else w
  {
    AtSlice(code, pos, ConstSkip(v, 4), Const(w));
    if s.pc == pos {
      t := ConstThenSkip(code, s0, s, v, 4);
    } else {
      t := ConstOk(code, s0, s, w);
    }
  }

  lemma FlagOk(code: seq<Instr>, s0: State, s: State, c: Cond, v: Word, w: Word) returns (t: State)
    requires Came(code, s0, s) && At(code, s.pc, OnFlag(c, v, w))
    ensures Came(code, s0, t) && t.pc == s.pc + 10 && Scratch(s, t)
    ensures t.regs[0] == if s.Holds(c) then w else v
  {
    AtSlice(code, s.pc, [Jmp(c, 5)], Either(v, w));
    t := JumpOk(code, s0, s, Jmp(c, 5));
    t := EitherOk(code, s0, t, s.pc + 1, v, w);
  }

  lemma BoolNotOk(code: seq<Instr>, s0: State, s: State) returns (t: State)
    requires Came(code, s0, s) && At(code, s.pc, [SubRR(0, ZERO), Jmp(Ne, 5)] + Either(1, 0))
    ensures Came(code, s0, t) && t.pc == s.pc + 11 && Scratch(s, t)
    ensures t.regs[0] == if s.regs[0] == 0 then 1 else 0
  {
    AtSlice(code, s.pc, [SubRR(0, ZERO), Jmp(Ne, 5)], Either(1, 0));
    t := StepOk(code, s0, s, SubRR(0, ZERO));
    t := JumpOk(code, s0, t, Jmp(Ne, 5));
    t := EitherOk(code, s0, t, s.pc + 2, 1, 0);
  }

  lemma BoolLeOk(code: seq<Instr>, s0: State, s: State) returns (t: State)
    requires Came(code, s0, s) && At(code, s.pc, [Jmp(Ls, 6), Jmp(Eq, 5)] + Either(0, 1))
    ensures Came(code, s0, t) && t.pc == s.pc + 11 && Scratch(s, t)
    ensures t.regs[0] == if s.s || s.z then 1 else 0
  {
    hide Came, Either;
    AtSlice(code, s.pc, [Jmp(Ls, 6), Jmp(Eq, 5)], Either(0, 1));
    AtFits(code, s.pc + 2, Either(0, 1));
    CameFits(code, s0, s);
    t := JumpOk(code, s0, s, Jmp(Ls, 6));
    if !s.s {
      t := JumpOk(code, s0, t, Jmp(Eq, 5));
    }
    t := EitherOk(code, s0, t, s.pc + 2, 0, 1);
  }

  lemma BoolGtOk(code: seq<Instr>, s0: State, s: State) returns (t: State)
    requires Came(code, s0, s)
    requires At(code, s.pc, [Jmp(Ge, 5)] + (ConstSkip(0, 10) + OnFlag(Eq, 1, 0)))
    ensures Came(code, s0, t) && t.pc == s.pc + 16 && Scratch(s, t)
    ensures t.regs[0] == if !s.s && !s.z then 1 else 0
  {
    hide At, ConstSkip, OnFlag;
    AtHead(code, s.pc, Jmp(Ge, 5), ConstSkip(0, 10) + OnFlag(Eq, 1, 0));
    AtSlice(code, s.pc + 1, ConstSkip(0, 10), OnFlag(Eq, 1, 0));
    t := JumpOk(code, s0, s, Jmp(Ge, 5));
    if s.s {
      AtFits(code, s.pc + 6, OnFlag(Eq, 1, 0));
      t := ConstThenSkip(code, s0, t, 0, 10);
    } else {
      t := FlagOk(code, s0, t, Eq, 1, 0);
    }
  }

  lemma JumpIfZeroOk(code: seq<Instr>, s0: State, s: State, target: Word) returns (t: State)
    requires Came(code, s0, s) && At(code, s.pc, [SubRR(0, ZERO), Jmp(Ne, 5)] + Goto(target))
    ensures Came(code, s0, t) && Scratch(s, t)
    ensures t.pc == if s.regs[0] == 0 then target else s.pc + 7
  {
    var test := [SubRR(0, ZERO), Jmp(Ne, 5)];
    AtSlice(code, s.pc, test, Goto(target));
    t := StepOk(code, s0, s, SubRR(0, ZERO));
    t := JumpOk(code, s0, t, Jmp(Ne, 5));
    if s.regs[0] == 0 {
      t := GotoOk(code, s0, t, target);
    }
  }

  predicate HasAddress(code: seq<Instr>, s: State, x: Place) {
    match x
    case Slot(i) => |code| <= s.regs[FP] - 1 - i
    case Abs(a) => |code| <= a
  }

  function Address(code: seq<Instr>, s: State, x: Place): Word
    requires HasAddress(code, s, x)
  {
    match x
    case Slot(i) => s.regs[FP] - 1 - i
    case Abs(a) => a
  }

  lemma ReadSlotCode(code: seq<Instr>, pos: nat, i: nat)
    requires i < 0xFFFF && At(code, pos, ReadVar(Slot(i)))
    ensures pos + 7 <= |code| && At(code, pos, Const(i + 1))
    ensures code[pos + 4] == CpyRR(8, FP) && code[pos + 5] == SubRR(8, 0) && code[pos + 6] == CpyRM(0, 8)
  {
    AtSlice(code, pos, Const(i + 1), [CpyRR(8, FP), SubRR(8, 0), CpyRM(0, 8)]);
  }

  lemma ReadSlotRuns(code: seq<Instr>, s0: State, s: State, i: nat) returns (t: State)
    requires Came(code, s0, s) && At(code, s.pc, ReadVar(Slot(i))) && HasAddress(code, s, Slot(i))
    ensures Came(code, s0, t) && t.pc == s.pc + 7 && Scratch(s, t)
    ensures t.regs[0] == s.mem[s.regs[FP] - 1 - i]
  {
    hide Came, At, ReadVar, Const, Bits;
    CameFits(code, s0, s);
    ReadSlotCode(code, s.pc, i);
    t := ConstOk(code, s0, s, i + 1);
    t := StepOk(code, s0, t, CpyRR(8, FP));
    t := StepOk(code, s0, t, SubRR(8, 0));
    t := StepOk(code, s0, t, CpyRM(0, 8));
  }

  lemma ReadAbsCode(code: seq<Instr>, pos: nat, a: Word)
    requires At(code, pos, ReadVar(Abs(a)))
    ensures pos + 6 <= |code| && At(code, pos, Const(a))
    ensures code[pos + 4] == CpyRR(8, 0) && code[pos + 5] == CpyRM(0, 8)
  {
    AtSlice(code, pos, Const(a), [CpyRR(8, 0), CpyRM(0, 8)]);
  }

  lemma ReadAbsRuns(code: seq<Instr>, s0: State, s: State, a: Word) returns (t: State)
    requires Came(code, s0, s) && At(code, s.pc, ReadVar(Abs(a))) && |code| <= a
    ensures Came(code, s0, t) && t.pc == s.pc + 6 && Scratch(s, t)
    ensures t.regs[0] == s.mem[a]
  {
    hide Came, At, ReadVar, Const, Bits;
    CameFits(code, s0, s);
    ReadAbsCode(code, s.pc, a);
    t := ConstOk(code, s0, s, a);
    t := StepOk(code, s0, t, CpyRR(8, 0));
    t := StepOk(code, s0, t, CpyRM(0, 8));
  }

  lemma ReadVarRuns(code: seq<Instr>, s0: State, s: State, x: Place) returns (t: State)
    requires Came(code, s0, s) && At(code, s.pc, ReadVar(x)) && HasAddress(code, s, x)
    ensures Came(code, s0, t) && t.pc == s.pc + |ReadVar(x)| && Scratch(s, t)
    ensures t.regs[0] == s.mem[Address(code, s, x)]
  {
    match x
    case Slot(i) => t := ReadSlotRuns(code, s0, s, i);
    case Abs(a) => t := ReadAbsRuns(code, s0, s, a);
  }

  ghost predicate Stored(code: seq<Instr>, s: State, t: State, a: Word) {
    && t.regs[0] == s.regs[0] && t.regs[FP] == s.regs[FP] && t.regs[SP] == s.regs[SP]
    && t.mem == s.mem[a := s.regs[0]]
  }

  lemma WriteSlotCode(code: seq<Instr>, pos: nat, i: nat)
    requires i < 0xFFFF && At(code, pos, WriteVar(Slot(i)))
    ensures pos + 9 <= |code| && code[pos] == CpyRR(2, 0) && At(code, pos + 1, Const(i + 1))
    ensures code[pos + 5] == CpyRR(8, FP) && code[pos + 6] == SubRR(8, 0)
    ensures code[pos + 7] == CpyRR(0, 2) && code[pos + 8] == CpyMR(8, 0)
  {
    var tail := [CpyRR(8, FP), SubRR(8, 0), CpyRR(0, 2), CpyMR(8, 0)];
    AtHead(code, pos, CpyRR(2, 0), Const(i + 1) + tail);
    AtSlice(code, pos + 1, Const(i + 1), tail);
  }

  lemma WriteSlotRuns(code: seq<Instr>, s0: State, s: State, i: nat) returns (t: State)
    requires Came(code, s0, s) && At(code, s.pc, WriteVar(Slot(i))) && HasAddress(code, s, Slot(i))
    ensures Came(code, s0, t) && t.pc == s.pc + 9 && Stored(code, s, t, s.regs[FP] - 1 - i)
  {
    hide Came, At, WriteVar, Const, Bits;
    CameFits(code, s0, s);
    WriteSlotCode(code, s.pc, i);
    t := StepOk(code, s0, s, CpyRR(2, 0));
    t := ConstOk(code, s0, t, i + 1);
    t := StepOk(code, s0, t, CpyRR(8, FP));
    t := StepOk(code, s0, t, SubRR(8, 0));
    t := StepOk(code, s0, t, CpyRR(0, 2));
    t := StepOk(code, s0, t, CpyMR(8, 0));
  }

  lemma WriteAbsCode(code: seq<Instr>, pos: nat, a: Word)
    requires At(code, pos, WriteVar(Abs(a)))
    ensures pos + 8 <= |code| && code[pos] == CpyRR(2, 0) && At(code, pos + 1, Const(a))
    ensures code[pos + 5] == CpyRR(8, 0) && code[pos + 6] == CpyRR(0, 2) && code[pos + 7] == CpyMR(8, 0)
  {
    var tail := [CpyRR(8, 0), CpyRR(0, 2), CpyMR(8, 0)];
    AtHead(code, pos, CpyRR(2, 0), Const(a) + tail);
    AtSlice(code, pos + 1, Const(a), tail);
  }

  lemma WriteAbsRuns(code: seq<Instr>, s0: State, s: State, a: Word) returns (t: State)
    requires Came(code, s0, s) && At(code, s.pc, WriteVar(Abs(a))) && |code| <= a
    ensures Came(code, s0, t) && t.pc == s.pc + 8 && Stored(code, s, t, a)
  {
    hide Came, At, WriteVar, Const, Bits;
    CameFits(code, s0, s);
    WriteAbsCode(code, s.pc, a);
    t := StepOk(code, s0, s, CpyRR(2, 0));
    t := ConstOk(code, s0, t, a);
    t := StepOk(code, s0, t, CpyRR(8, 0));
    t := StepOk(code, s0, t, CpyRR(0, 2));
    t := StepOk(code, s0, t, CpyMR(8, 0));
  }

  /** Storing R0 in a variable; R0 keeps the value. */
  lemma WriteVarRuns(code: seq<Instr>, s0: State, s: State, x: Place) returns (t: State)
    requires Came(code, s0, s) && At(code, s.pc, WriteVar(x)) && HasAddress(code, s, x)
    ensures Came(code, s0, t) && t.pc == s.pc + |WriteVar(x)|
    ensures Stored(code, s, t, Address(code, s, x))
  {
    match x
    case Slot(i) => t := WriteSlotRuns(code, s0, s, i);
    case Abs(a) => t := WriteAbsRuns(code, s0, s, a);
  }
}
