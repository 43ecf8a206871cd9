/** Composite instructions of the BackSlash 5 assembler: the words each expands to, and what it is meant to do. */
module Bs5Micro {
  import opened Words
  import opened Bs5Isa

  /** Operand registers of composite instructions. */
  type General = r: nat | 2 <= r <= 12 witness 2

  /** Flag marking of a source line: none, nf or fl. */
  datatype Mark = Unmarked | Nf | Fl

  /** Conditions of a source line: those of the core, and those tested through the X flag. */
  datatype Condition = Plain(c: Cond) | Derived(bit: FlagBit, on: bool)

  datatype Source = OfReg(x: General) | OfImm(v: Word) | AtReg(x: General) | AtImm(a: Word)

  datatype Base = StackBase | LocalBase

  datatype Index = I4(n: Quartet) | I16(v: Word) | IReg(x: General)

  datatype Dest = ToReg(x: General) | ToAtReg(x: General) | ToAtImm(a: Word)

  datatype Target = CallReg(x: General) | CallAtReg(x: General) | CallImm(v: Word) | CallAtImm(a: Word) | Near(off: Offset)

  datatype Kind16 = MovI | AddI | SubI | LoadI | StoreI | AddM | SubM

  datatype Micro =
    | Through(op: R0Op, x: General)
    | Imm16(k: Kind16, x: General, v: Word)
    | Logic(or: bool, x: General, src: Source)
    | Push(src: Source)
    | Pop(x: General)
    | Return
    | PopAtReg(x: General)
    | PopAtImm(a: Word)
    | Call(target: Target)
    | Write(base: Base, idx: Index, src: Source)
    | Read(dst: Dest, base: Base, idx: Index)
    | AddTop
    | SubTop
    | ShlTop(n: Quartet)
    | ShrTop(n: Quartet)
    | AndTop
    | OrTop
    | NotTop

  predicate IsGeneral(y: Reg) { 2 <= y <= 12 }

  /** The assembler has these instructions: through R0 any operation but `not`, with general operands, and logic
      with an immediate operand or one at an immediate address. */
  predicate Exists(m: Micro) {
    match m
    case Through(op, _) =>
      !op.NotR0? && (op.LowLow? || op.LowHigh? || op.HighLow? || op.HighHigh? || op.And? || op.Or? ==> IsGeneral(op.y))
    case Logic(_, _, src) => src.OfImm? || src.AtImm?
    case _ => true
  }

  // ----- expansion -----

  /** Instructions that set flags unless marked otherwise. */
  predicate FlagsByDefault(i: Core) {
    match i
    case AddRM(_, _) => true
    case SubRM(_, _) => true
    case AddRR(_, _) => true
    case SubRR(_, _) => true
    case Inc(_) => true
    case Dec(_) => true
    case OnR0(op) => op.AddImm? || op.SubImm? || op.Shl? || op.Shr? || op.And? || op.Or? || op.NotR0?
    case _ => false
  }

  predicate Sets(f: Mark, i: Core) { f.Fl? || (f.Unmarked? && FlagsByDefault(i)) }

  function Quiet(i: Core): Cell { Cell(Al, false, i) }

  function Marked(f: Mark, i: Core): Cell { Cell(Al, Sets(f, i), i) }

  /** R0 := v. */
  function LoadR0(v: Word): (c: seq<Cell>)
    ensures |c| == 2
  {
    [Quiet(OnR0(MovLow(Low(v)))), Quiet(OnR0(MovHigh(High(v))))]
  }

  function BaseReg(b: Base): Reg { if b.StackBase? then SP else LP }

  /** R0 := base + index. */
  function AddressR0(b: Base, idx: Index, regFirst: bool): seq<Cell> {
    match idx
    case I4(n) => [Quiet(MovRR(0, BaseReg(b))), Quiet(OnR0(AddImm(n)))]
    case I16(v) => LoadR0(v) + [Quiet(AddRR(0, BaseReg(b)))]
    case IReg(x) =>
      if regFirst then [Quiet(MovRR(0, x)), Quiet(AddRR(0, BaseReg(b)))]
      else [Quiet(MovRR(0, BaseReg(b))), Quiet(AddRR(0, x))]
  }

  /** Save R1 below the stack and move R0 to it. */
  const SpillR1: seq<Cell> := [Quiet(Dec(SP)), Quiet(MovMR(SP, 1)), Quiet(MovRR(1, 0))]

  const RestoreR1: seq<Cell> := [Quiet(MovRM(1, SP)), Quiet(Inc(SP))]

  /** Fetch a source operand into R0. */
  function Fetch(src: Source): seq<Cell> {
    match src
    case OfReg(x) => [Quiet(MovRR(0, x))]
    case OfImm(v) => LoadR0(v)
    case AtReg(x) => [Quiet(MovRM(0, x))]
    case AtImm(a) => LoadR0(a) + [Quiet(MovRM(0, 0))]
  }

  /** With a 16-bit index and a memory source the base is moved to R0 where elsewhere it is added. */
  predicate BaseReplaces(idx: Index, src: Source) { idx.I16? && src.AtImm? }

  function WriteAddress(b: Base, idx: Index, src: Source): seq<Cell> {
    if BaseReplaces(idx, src) then LoadR0(idx.v) + [Quiet(MovRR(0, BaseReg(b)))]
    else AddressR0(b, idx, false)
  }

  function Core16(k: Kind16, x: General): Core {
    match k
    case MovI => MovRR(x, 0)
    case AddI => AddRR(x, 0)
    case SubI => SubRR(x, 0)
    case LoadI => MovRM(x, 0)
    case StoreI => MovMR(0, x)
    case AddM => AddRM(x, 0)
    case SubM => SubRM(x, 0)
  }

  /** Push the address that lies n words past the next instruction. */
  function PushPc(n: Quartet): seq<Cell> {
    [Quiet(MovRR(0, PC)), Quiet(OnR0(AddImm(n))), Quiet(Dec(SP)), Quiet(MovMR(SP, 0))]
  }

  function CallCells(t: Target, f: Mark): seq<Cell> {
    match t
    case CallReg(x) => PushPc(4) + [Marked(f, MovRR(PC, x))]
    case CallAtReg(x) => PushPc(4) + [Marked(f, MovRM(PC, x))]
    case CallImm(v) => PushPc(6) + (LoadR0(v) + [Marked(f, MovRR(PC, 0))])
    case CallAtImm(a) => PushPc(7) + (LoadR0(a) + [Quiet(MovRM(0, 0)), Marked(f, MovRR(PC, 0))])
    case Near(off) => PushPc(4) + [Marked(f, AddPc(off))]
  }

  function LogicTop(op: R0Op, f: Mark): seq<Cell> {
    [Quiet(MovRM(0, SP)), Quiet(MovMR(SP, 1)), Quiet(Inc(SP)), Quiet(MovRM(1, SP)), Marked(f, OnR0(op)),
     Quiet(MovMR(SP, 0)), Quiet(Dec(SP)), Quiet(MovRM(1, SP)), Quiet(Inc(SP))]
  }

  function TopOp(op: R0Op, f: Mark): seq<Cell> {
    [Quiet(MovRM(0, SP)), Marked(f, OnR0(op)), Quiet(MovMR(SP, 0))]
  }

  function TwoTop(i: Core, f: Mark): seq<Cell> {
    [Quiet(MovRM(0, SP)), Quiet(Inc(SP)), Marked(f, i), Quiet(MovMR(SP, 0))]
  }

  function Body(m: Micro, f: Mark): seq<Cell> {
    match m
    case Through(op, x) => [Quiet(MovRR(0, x)), Marked(f, OnR0(op)), Quiet(MovRR(x, 0))]
    case Imm16(k, x, v) => LoadR0(v) + [Marked(f, Core16(k, x))]
    case Logic(or, x, src) => Fetch(src) + [Marked(f, OnR0(if or then Or(x) else And(x))), Quiet(MovRR(x, 0))]
    case Push(OfReg(x)) => [Quiet(Dec(SP)), Marked(f, MovMR(SP, x))]
    case Push(src) => [Quiet(Dec(SP))] + (Fetch(src) + [Marked(f, MovMR(SP, 0))])
    case Pop(x) => [Marked(f, MovRM(x, SP)), Quiet(Inc(SP))]
    case Return => [Quiet(MovRM(0, SP)), Quiet(Inc(SP)), Marked(f, MovRR(PC, 0))]
    case PopAtReg(x) => [Quiet(MovRM(0, SP)), Quiet(Inc(SP)), Marked(f, MovMR(x, 0))]
    case PopAtImm(a) =>
      LoadR0(a) +
      ([Quiet(Dec(SP)), Quiet(MovMR(SP, 1)), Quiet(Inc(SP)), Quiet(MovRM(1, SP)), Marked(f, MovMR(0, 1))] +
       [Quiet(Dec(SP)), Quiet(MovRM(1, SP)), Quiet(Inc(SP)), Quiet(Inc(SP))])
    case Call(t) => CallCells(t, f)
    case Write(b, idx, OfReg(x)) => AddressR0(b, idx, true) + [Marked(f, MovMR(0, x))]
    case Write(b, idx, src) =>
      WriteAddress(b, idx, src) + (SpillR1 + (Fetch(src) + ([Marked(f, MovMR(1, 0))] + RestoreR1)))
    case Read(ToReg(x), b, idx) => AddressR0(b, idx, false) + [Marked(f, MovRM(x, 0))]
    case Read(ToAtReg(x), b, idx) => AddressR0(b, idx, false) + [Quiet(MovRM(0, 0)), Marked(f, MovMR(x, 0))]
    case Read(ToAtImm(a), b, idx) =>
      AddressR0(b, idx, true) +
      ([Quiet(MovRM(0, 0))] + (SpillR1 + (LoadR0(a) + ([Marked(f, MovMR(0, 1))] + RestoreR1))))
    case AddTop => TwoTop(AddRM(0, SP), f)
    case SubTop => TwoTop(SubRM(0, SP), f)
    case ShlTop(n) => TopOp(Shl(n), f)
    case ShrTop(n) => TopOp(Shr(n), f)
    case AndTop => LogicTop(And(1), f)
    case OrTop => LogicTop(Or(1), f)
    case NotTop => TopOp(NotR0, f)
  }

  /** The number of words the second word of the prologue skips. */
  function SkipSize(m: Micro): nat {
    match m
    case Through(_, _) => 3
    case Imm16(_, _, _) => 3
    case Logic(_, _, OfImm(_)) => 4
    case Logic(_, _, _) => 5
    case Push(OfReg(_)) => 2
    case Push(AtReg(_)) => 3
    case Push(OfImm(_)) => 4
    case Push(AtImm(_)) => 5
    case Pop(_) => 2
    case Return => 3
    case PopAtReg(_) => 3
    case PopAtImm(_) => 11
    case Call(CallImm(_)) => 7
    case Call(CallAtImm(_)) => 8
    case Call(_) => 5
    case Write(_, I16(_), OfReg(_)) => 4
    case Write(_, _, OfReg(_)) => 3
    case Write(_, I16(_), OfImm(_)) => 11
    case Write(_, _, OfImm(_)) => 10
    case Write(_, I16(_), AtReg(_)) => 10
    case Write(_, _, AtReg(_)) => 9
    case Write(_, I16(_), AtImm(_)) => 12
    case Write(_, _, AtImm(_)) => 11
    case Read(ToReg(_), _, I16(_)) => 4
    case Read(ToReg(_), _, _) => 3
    case Read(ToAtReg(_), _, I16(_)) => 5
    case Read(ToAtReg(_), _, _) => 4
    case Read(ToAtImm(_), _, I16(_)) => 12
    case Read(ToAtImm(_), _, _) => 11
    case AddTop => 4
    case SubTop => 4
    case ShlTop(_) => 3
    case ShrTop(_) => 3
    case AndTop => 9
    case OrTop => 9
    case NotTop => 3
  }

  /** An instruction under a condition; a derived condition is first moved to the X flag. */
  function Guarded(c: Condition, fl: bool, i: Core): seq<Cell> {
    match c
    case Plain(cond) => [Cell(cond, fl, i)]
    case Derived(b, on) => [Quiet(FlagToX(b)), Cell(if on then Xs else Xc, fl, i)]
  }

  function Prologue(c: Condition, n: nat): seq<Cell>
    requires n < 128
  {
    if c == Plain(Al) then [] else Guarded(c, false, AddPc(1)) + [Quiet(AddPc(n))]
  }

  function Assembled(c: Condition, f: Mark, m: Micro): seq<Cell> {
    Prologue(c, SkipSize(m)) + Body(m, f)
  }

  /** `mov R0, imm16` has no prologue; each of its words carries the condition. */
  function MovR0Imm16(c: Condition, f: Mark, v: Word): seq<Cell> {
    Guarded(c, false, OnR0(MovLow(Low(v)))) + (Guarded(c, false, OnR0(MovHigh(High(v)))) +
      (if f.Fl? then Guarded(c, true, MovRR(0, 0)) else []))
  }

  // ----- meaning -----

  predicate Met(c: Condition, f: Flags) {
    match c
    case Plain(cond) => f.Holds(cond)
    case Derived(b, on) => f.Bit(b) == on
  }

  /** Testing a derived condition leaves the tested bit in X. */
  function Tested(c: Condition, f: Flags): Flags { if c.Derived? then f.(x := f.Bit(c.bit)) else f }

  function Value(src: Source, s: State): Word {
    match src
    case OfReg(x) => s.R(x)
    case OfImm(v) => v
    case AtReg(x) => s.mem[s.R(x)]
    case AtImm(a) => s.mem[a]
  }

  function Address(b: Base, idx: Index, s: State): Word {
    Add(s.R(BaseReg(b)), match idx case I4(n) => n case I16(v) => v case IReg(x) => s.R(x))
  }

  function Below(s: State): Word { Sub(s.R(SP), 1) }

  function Above(s: State): Word { Add(s.R(SP), 1) }

  function TargetOf(t: Target, s: State, next: Word): Word {
    match t
    case CallReg(x) => s.R(x)
    case CallAtReg(x) => s.mem[s.R(x)]
    case CallImm(v) => v
    case CallAtImm(a) => s.mem[a]
    case Near(off) => (next + off) % 0x10000
  }

  /** Flags of a marked move of v. */
  function Moved(s: State, f: Mark, v: Word): State { s.Flag(f.Fl?, MovFlags(s.flags, v)) }

  function Done(s: State, fl: bool, f: Flags): State { s.Flag(fl, f) }

  /** The state the method's comment promises, at the address after the expansion, but for scratch. */
  function Meant(m: Micro, f: Mark, s: State, next: Word): State {
    Promised(m, f, s, next).(pc := match m
                                   case Return => s.mem[s.R(SP)]
                                   case Call(t) => TargetOf(t, s, next)
                                   case _ => next)
  }

  predicate MovesByte(op: R0Op) {
    op.MovLow? || op.MovHigh? || op.LowLow? || op.LowHigh? || op.HighLow? || op.HighHigh?
  }

  function Promised(m: Micro, f: Mark, s: State, next: Word): State {
    match m
    case Through(op, x) =>
      s.Set(x, Result(op, s.R(x), s)).Flag(if MovesByte(op) then f.Fl? else !f.Nf?, ResultFlags(op, s.R(x), s))
    case Imm16(MovI, x, v) => Moved(s.Set(x, v), f, v)
    case Imm16(AddI, x, v) => s.Set(x, Add(s.R(x), v)).Flag(!f.Nf?, AddFlags(s.flags, s.R(x), v))
    case Imm16(SubI, x, v) => s.Set(x, Sub(s.R(x), v)).Flag(!f.Nf?, SubFlags(s.flags, s.R(x), v))
    case Imm16(LoadI, x, a) => Moved(s.Set(x, s.mem[a]), f, s.mem[a])
    case Imm16(StoreI, x, a) => Moved(s.Store(a, s.R(x)), f, s.R(x))
    case Imm16(AddM, x, a) => s.Set(x, Add(s.R(x), s.mem[a])).Flag(!f.Nf?, AddFlags(s.flags, s.R(x), s.mem[a]))
    case Imm16(SubM, x, a) => s.Set(x, Sub(s.R(x), s.mem[a])).Flag(!f.Nf?, SubFlags(s.flags, s.R(x), s.mem[a]))
    case Logic(or, x, src) =>
      var v := Bits(if or then OrF else AndF, s.R(x), Value(src, s));
      s.Set(x, v).Flag(!f.Nf?, MovFlags(s.flags, v))
    case Push(src) => Moved(s.Set(SP, Below(s)).Store(Below(s), Value(src, s)), f, Value(src, s))
    case Pop(x) => Moved(s.Set(x, s.mem[s.R(SP)]).Set(SP, Above(s)), f, s.mem[s.R(SP)])
    case Return => Moved(s.Set(SP, Above(s)), f, s.mem[s.R(SP)])
    case PopAtReg(x) => Moved(s.Store(s.R(x), s.mem[s.R(SP)]).Set(SP, Above(s)), f, s.mem[s.R(SP)])
    case PopAtImm(a) => Moved(s.Store(a, s.mem[s.R(SP)]).Set(SP, Above(s)), f, s.mem[s.R(SP)])
    case Call(t) =>
      var u := s.Set(SP, Below(s)).Store(Below(s), next);
      if t.Near? then u.Flag(f.Fl?, AddFlags(s.flags, next, t.off % 0x10000)) else Moved(u, f, TargetOf(t, s, next))
    case Write(b, idx, src) => Moved(s.Store(Address(b, idx, s), Value(src, s)), f, Value(src, s))
    case Read(dst, b, idx) =>
      var v := s.mem[Address(b, idx, s)];
      Moved(match dst case ToReg(x) => s.Set(x, v) case ToAtReg(x) => s.Store(s.R(x), v) case ToAtImm(a) => s.Store(a, v),
            f, v)
    case AddTop =>
      var a, b := s.mem[s.R(SP)], s.mem[Above(s)];
      s.Set(SP, Above(s)).Store(Above(s), Add(a, b)).Flag(!f.Nf?, AddFlags(s.flags, a, b))
    case SubTop =>
      var a, b := s.mem[s.R(SP)], s.mem[Above(s)];
      s.Set(SP, Above(s)).Store(Above(s), Sub(a, b)).Flag(!f.Nf?, SubFlags(s.flags, a, b))
    case ShlTop(n) => OnTop(Shl(n), f, s)
    case ShrTop(n) => OnTop(Shr(n), f, s)
    case AndTop => TwoTops(AndF, f, s)
    case OrTop => TwoTops(OrF, f, s)
    case NotTop => OnTop(NotR0, f, s)
  }

  function OnTop(op: R0Op, f: Mark, s: State): State {
    var a := s.mem[s.R(SP)];
    s.Store(s.R(SP), Result(op, a, s)).Flag(!f.Nf?, ResultFlags(op, a, s))
  }

  function TwoTops(fn: BitFn, f: Mark, s: State): State {
    var v := Bits(fn, s.mem[s.R(SP)], s.mem[Above(s)]);
    s.Set(SP, Above(s)).Store(Above(s), v).Flag(!f.Nf?, MovFlags(s.flags, v))
  }

  /** Data addresses an instruction writes for good. */
  predicate Writes(m: Micro, s: State, a: Word) {
    match m
    case PopAtImm(b) => a == b
    case Write(b, idx, _) => a == Address(b, idx, s)
    case Read(ToAtImm(b), _, _) => a == b
    case _ => false
  }

  /** The one word below the stack an instruction may use: the popped word of a logic operation, or the word
      below the stack pointer where R1 is kept. */
  predicate Scratch(m: Micro, s: State, a: Word) {
    match m
    case AndTop => a == s.R(SP)
    case OrTop => a == s.R(SP)
    case PopAtImm(_) => a == Below(s) && !Writes(m, s, a)
    case Write(_, _, src) => !src.OfReg? && a == Below(s) && !Writes(m, s, a)
    case Read(dst, _, _) => dst.ToAtImm? && a == Below(s) && !Writes(m, s, a)
    case _ => false
  }

  /** Equal but for R0 and scratch. */
  ghost predicate Same(m: Micro, s: State, t: State, u: State) {
    && t.pc == u.pc && t.flags == u.flags
    && (forall r: nat :: 1 <= r < 14 ==> t.regs[r] == u.regs[r])
    && (forall a: Word :: !Scratch(m, s, a) ==> t.mem[a] == u.mem[a])
  }

  predicate ReadsBelow(src: Source, s: State) {
    match src
    case AtReg(x) => s.R(x) == Below(s)
    case AtImm(a) => a == Below(s)
    case _ => false
  }

  /** When the word below the stack pointer is also an operand, the value saved there is taken for it: harmless
      only if the values happen to agree. */
  predicate Harmless(m: Micro, s: State, next: Word) {
    var below, saved := Below(s), s.R(1);
    var held := s.mem[below];
    match m
    case PopAtImm(a) => a == below ==> s.mem[s.R(SP)] == saved
    case Call(CallAtReg(x)) => s.R(x) == below ==> held == next
    case Call(CallAtImm(a)) => a == below ==> held == next
    case Write(_, _, OfReg(_)) => true
    case Write(b, idx, src) =>
      && (Address(b, idx, s) == below ==> Value(src, s) == saved)
      && (ReadsBelow(src, s) ==> held == saved)
    case Read(ToAtImm(a), b, idx) => a == below ==> s.mem[Address(b, idx, s)] == saved
    case _ => true
  }

  /** The two instructions in which the base replaces the index instead of being added to it. */
  predicate LosesIndex(m: Micro) { m.Write? && BaseReplaces(m.idx, m.src) && m.idx.v != 0 }

  /** The value goes to the base address: the promise is kept only if memory already holds the value at both
      addresses, the word below the stack pointer standing for R1. */
  predicate KeptByLuck(b: Base, idx: Index, src: Source, f: Mark, s: State) {
    var meant, base, below, saved := Address(b, idx, s), s.R(BaseReg(b)), Below(s), s.R(1);
    var v, w := Value(src, s), if ReadsBelow(src, s) then saved else Value(src, s);
    && v == (if meant == below then saved else s.mem[meant])
    && w == (if base == below then saved else s.mem[base])
    && (f.Fl? ==> (w == 0 <==> v == 0) && (Negative(w) <==> Negative(v)))
  }

  /** When the promise is kept, in terms of the state before. */
  predicate Kept(m: Micro, f: Mark, s: State, next: Word) {
    if LosesIndex(m) then KeptByLuck(m.base, m.idx, m.src, f, s) else Harmless(m, s, next)
  }

  // ----- condition names -----

  /** The names of a source line's condition; a name stands for its synonym too. */
  datatype Name = AL | EQ | NE | HS | LO | XS | XC | NO | HI | LS | GE | LT | GT | LE | VC | VS | PL | MI

  function ConditionOf(name: Name): Condition {
    match name
    case AL => Plain(Al)
    case EQ => Plain(Eq)
    case NE => Plain(Ne)
    case HS => Plain(Cs)
    case LO => Plain(Cc)
    case XS => Plain(Xs)
    case XC => Plain(Xc)
    case NO => Plain(No)
    case HI => Derived(ABit, true)
    case LS => Derived(ABit, false)
    case GE => Derived(LBit, false)
    case LT => Derived(LBit, true)
    case GT => Derived(GBit, true)
    case LE => Derived(GBit, false)
    case VC => Derived(VBit, false)
    case VS => Derived(VBit, true)
    case PL => Derived(SBit, false)
    case MI => Derived(SBit, true)
  }

  predicate MetAs(name: Name, f: Flags) { Met(ConditionOf(name), f) }

  /** After `fl sub` of b from a the signed conditions compare a with b. The unsigned ones do the opposite of their
      names: the carry is the borrow, so higher, and higher or same, hold when a is lower. */
  lemma ComparisonMeaning(a: Word, b: Word, f: Flags)
    ensures var g := SubFlags(f, a, b);
            && (MetAs(EQ, g) <==> a == b) && (MetAs(NE, g) <==> a != b)
            && (MetAs(LT, g) <==> Signed(a) < Signed(b)) && (MetAs(GE, g) <==> Signed(a) >= Signed(b))
            && (MetAs(GT, g) <==> Signed(a) > Signed(b)) && (MetAs(LE, g) <==> Signed(a) <= Signed(b))
            && (MetAs(HS, g) <==> a < b) && (MetAs(LO, g) <==> a >= b)
            && (MetAs(HI, g) <==> a < b) && (MetAs(LS, g) <==> a >= b)
  {
    hide SubFlags, Signed, MetAs;
    SubBits(a, b, f);
    var g := SubFlags(f, a, b);
    NamesMean(EQ, g);
    NamesMean(NE, g);
    NamesMean(LT, g);
    NamesMean(GE, g);
    NamesMean(GT, g);
    NamesMean(LE, g);
    NamesMean(HS, g);
    NamesMean(LO, g);
    NamesMean(HI, g);
    NamesMean(LS, g);
  }

  /** Every name by the flags of a source line. */
  lemma NamesMean(name: Name, g: Flags)
    ensures MetAs(name, g) <==>
            match name
            case AL => true
            case NO => false
            case XS => g.x
            case XC => !g.x
            case EQ => g.z
            case NE => !g.z
            case HS => g.c
            case LO => !g.c
            case LT => g.s != g.v
            case GE => g.s == g.v
            case GT => !g.z && g.s == g.v
            case LE => g.z || g.s != g.v
            case HI => g.c && !g.z
            case LS => !g.c || g.z
            case VS => g.v
            case VC => !g.v
            case MI => g.s
            case PL => !g.s
  {
  }

  lemma SubBits(a: Word, b: Word, f: Flags)
    ensures var g := SubFlags(f, a, b);
            && g.z == (a == b) && g.c == (a < b)
            && (g.Bit(LBit) <==> Signed(a) < Signed(b)) && (g.Bit(GBit) <==> Signed(a) > Signed(b))
            && (g.Bit(ABit) <==> a < b)
  {
    hide Sub, Signed;
    SubSigns(a, b);
    SignedApart(a, b);
  }

  lemma SignedApart(a: Word, b: Word)
    ensures Signed(a) == Signed(b) <==> a == b
  {
  }

  lemma SubSigns(a: Word, b: Word)
    ensures Sub(a, b) == if a < b then a - b + 0x10000 else a - b
    ensures (Negative(Sub(a, b)) != (Negative(a) != Negative(b) && Negative(Sub(a, b)) != Negative(a))) <==>
            Signed(a) < Signed(b)
  {
  }
}
