/** The part of the BackSlash 5 instruction set that microprograms are made of, with a small-step semantics.
    Program and data are separate memories. R15 is the address of the next instruction. */
module Bs5Isa {
  import opened Options
  import opened Words

  /** R0..R13 and R15; R14, the flags, is read bit by bit only. */
  type Reg = r: nat | r < 16 && r != 14

  const SP: Reg := 13
  const LP: Reg := 12
  const PC: Reg := 15

  type Byte = b: nat | b < 256
  type Quartet = n: nat | n < 16
  type Offset = x: int | -128 <= x <= 127

  datatype Cond = Al | Eq | Ne | Cs | Cc | Xs | Xc | No

  /** Bits 3 to 7 of R14; the last three are computed from the others. */
  datatype FlagBit = VBit | SBit | ABit | LBit | GBit

  datatype Flags = Flags(c: bool, z: bool, x: bool, v: bool, s: bool) {
    predicate Bit(b: FlagBit) {
      match b
      case VBit => v
      case SBit => s
      case ABit => c && !z
      case LBit => s != v
      case GBit => !z && s == v
    }

    predicate Holds(cond: Cond) {
      match cond
      case Al => true
      case Eq => z
      case Ne => !z
      case Cs => c
      case Cc => !c
      case Xs => x
      case Xc => !x
      case No => false
    }
  }

  /** Instructions that combine R0 with an operand. */
  datatype R0Op =
    | MovLow(b: Byte)
    | MovHigh(b: Byte)
    | AddImm(n: Quartet)
    | SubImm(n: Quartet)
    | Shl(n: Quartet)
    | Shr(n: Quartet)
    | LowLow(y: Reg)
    | LowHigh(y: Reg)
    | HighLow(y: Reg)
    | HighHigh(y: Reg)
    | And(y: Reg)
    | Or(y: Reg)
    | NotR0

  datatype Core =
    | MovMR(x: Reg, y: Reg)
    | MovRM(x: Reg, y: Reg)
    | AddRM(x: Reg, y: Reg)
    | SubRM(x: Reg, y: Reg)
    | MovRR(x: Reg, y: Reg)
    | AddRR(x: Reg, y: Reg)
    | SubRR(x: Reg, y: Reg)
    | Inc(x: Reg)
    | Dec(x: Reg)
    | AddPc(off: Offset)
    | FlagToX(bit: FlagBit)
    | OnR0(op: R0Op)

  /** One program word. */
  datatype Cell = Cell(cond: Cond, fl: bool, core: Core)

  type Regs = r: seq<Word> | |r| == 14 witness seq(14, i => 0)

  datatype State = State(pc: Word, regs: Regs, flags: Flags, mem: Memory) {
    function R(x: Reg): Word { if x == PC then pc else regs[x] }

    function Set(x: Reg, v: Word): State {
      if x == PC then this.(pc := v) else this.(regs := regs[x := v])
    }

    function Store(a: Word, v: Word): State { this.(mem := mem[a := v]) }

    /** Flags are changed by instructions marked fl only. */
    function Flag(fl: bool, f: Flags): State { if fl then this.(flags := f) else this }
  }

  // ----- arithmetic -----

  function MovFlags(f: Flags, v: Word): Flags { f.(z := v == 0, s := Negative(v)) }

  function AddFlags(f: Flags, a: Word, b: Word): Flags {
    var r := Add(a, b);
    MovFlags(f, r).(c := a + b >= 0x10000,
                    v := Negative(a) == Negative(b) && Negative(r) != Negative(a))
  }

  function SubFlags(f: Flags, a: Word, b: Word): Flags {
    var r := Sub(a, b);
    MovFlags(f, r).(c := a < b, v := Negative(a) != Negative(b) && Negative(r) != Negative(a))
  }

  function ShlBy(a: Word, n: nat): Word
    decreases n
  {
    if n == 0 then a else ShlBy(Add(a, a), n - 1)
  }

  function ShrBy(a: Word, n: nat): Word
    decreases n
  {
    if n == 0 then a else ShrBy(a / 2, n - 1)
  }

  /** The last bit shifted out; none for a shift by 0. */
  predicate ShlOut(a: Word, n: Quartet) { n > 0 && Negative(ShlBy(a, n - 1)) }

  predicate ShrOut(a: Word, n: Quartet) { n > 0 && ShrBy(a, n - 1) % 2 == 1 }

  function Low(a: Word): Byte { a % 256 }
  function High(a: Word): Byte { a / 256 }
  function Bytes(high: Byte, low: Byte): Word { high * 256 + low }

  /** What an operation makes of the value a in place of R0. */
  function Result(op: R0Op, a: Word, s: State): Word {
    match op
    case MovLow(b) => Bytes(High(a), b)
    case MovHigh(b) => Bytes(b, Low(a))
    case AddImm(n) => Add(a, n)
    case SubImm(n) => Sub(a, n)
    case Shl(n) => ShlBy(a, n)
    case Shr(n) => ShrBy(a, n)
    case LowLow(y) => Bytes(High(a), Low(s.R(y)))
    case LowHigh(y) => Bytes(High(a), High(s.R(y)))
    case HighLow(y) => Bytes(Low(s.R(y)), Low(a))
    case HighHigh(y) => Bytes(High(s.R(y)), Low(a))
    case And(y) => Bits(AndF, a, s.R(y))
    case Or(y) => Bits(OrF, a, s.R(y))
    case NotR0 => 0xFFFF - a
  }

  function ResultFlags(op: R0Op, a: Word, s: State): Flags {
    match op
    case AddImm(n) => AddFlags(s.flags, a, n)
    case SubImm(n) => SubFlags(s.flags, a, n)
    case Shl(n) => MovFlags(s.flags, Result(op, a, s)).(c := ShlOut(a, n))
    case Shr(n) => MovFlags(s.flags, Result(op, a, s)).(c := ShrOut(a, n))
    case _ => MovFlags(s.flags, Result(op, a, s))
  }

  // ----- execution -----

  /** The effect of an instruction, the program counter already past it. */
  function Effect(i: Core, fl: bool, s: State): State {
    match i
    case MovMR(x, y) => s.Store(s.R(x), s.R(y)).Flag(fl, MovFlags(s.flags, s.R(y)))
    case MovRM(x, y) => s.Set(x, s.mem[s.R(y)]).Flag(fl, MovFlags(s.flags, s.mem[s.R(y)]))
    case AddRM(x, y) => s.Set(x, Add(s.R(x), s.mem[s.R(y)])).Flag(fl, AddFlags(s.flags, s.R(x), s.mem[s.R(y)]))
    case SubRM(x, y) => s.Set(x, Sub(s.R(x), s.mem[s.R(y)])).Flag(fl, SubFlags(s.flags, s.R(x), s.mem[s.R(y)]))
    case MovRR(x, y) => s.Set(x, s.R(y)).Flag(fl, MovFlags(s.flags, s.R(y)))
    case AddRR(x, y) => s.Set(x, Add(s.R(x), s.R(y))).Flag(fl, AddFlags(s.flags, s.R(x), s.R(y)))
    case SubRR(x, y) => s.Set(x, Sub(s.R(x), s.R(y))).Flag(fl, SubFlags(s.flags, s.R(x), s.R(y)))
    case Inc(x) => s.Set(x, Add(s.R(x), 1)).Flag(fl, AddFlags(s.flags, s.R(x), 1))
    case Dec(x) => s.Set(x, Sub(s.R(x), 1)).Flag(fl, SubFlags(s.flags, s.R(x), 1))
    case AddPc(off) => s.(pc := (s.pc + off) % 0x10000).Flag(fl, AddFlags(s.flags, s.pc, off % 0x10000))
    case FlagToX(b) => s.(flags := s.flags.(x := s.flags.Bit(b)))
    case OnR0(op) => s.Set(0, Result(op, s.R(0), s)).Flag(fl, ResultFlags(op, s.R(0), s))
  }

  function Next(s: State): State { s.(pc := Add(s.pc, 1)) }

  /** The instruction with the condition no is executed for its flags only. */
  function Do(cell: Cell, s: State): State {
    var t := Next(s);
    if cell.cond == No then (if cell.fl then t.(flags := Effect(cell.core, true, t).flags) else t)
    else if s.flags.Holds(cell.cond) then Effect(cell.core, cell.fl, t)
    else t
  }

  function Step(code: seq<Cell>, s: State): Option<State> {
    if s.pc < |code| then Some(Do(code[s.pc], s)) else None
  }

  function Run(code: seq<Cell>, s: State, n: nat): Option<State>
    decreases n
  {
    if n == 0 then Some(s) else
    var t := Step(code, s);
    if t.None? then None else Run(code, t.value, n - 1)
  }

  lemma {:induction false} RunCompose(code: seq<Cell>, s: State, n: nat, t: State, m: nat)
    requires Run(code, s, n) == Some(t)
    ensures Run(code, s, n + m) == Run(code, t, m)
    decreases n
  {
    if n > 0 {
      RunCompose(code, Step(code, s).value, n - 1, t, m);
    }
  }

  // ----- straight-line code -----

  ghost predicate At(code: seq<Cell>, pos: nat, block: seq<Cell>) {
    pos + |block| <= |code| && forall j :: pos <= j < pos + |block| ==> code[j] == block[j - pos]
  }

  lemma AtSplit(code: seq<Cell>, pos: nat, a: seq<Cell>, b: seq<Cell>)
    requires At(code, pos, a + b)
    ensures At(code, pos, a) && At(code, pos + |a|, b)
  {
    forall j | pos <= j < pos + |a|
      ensures code[j] == a[j - pos]
    {
      assert code[j] == (a + b)[j - pos];
    }
    forall j | pos + |a| <= j < pos + |a| + |b|
      ensures code[j] == b[j - (pos + |a|)]
    {
      assert code[j] == (a + b)[j - pos];
    }
  }

  /** The cells one after the other, wherever they lie. */
  function DoAll(cells: seq<Cell>, s: State): State { Fold(Do, cells, s) }

  function Fold<C, S>(step: (C, S) -> S, cs: seq<C>, s: S): S {
    if cs == [] then s else Fold(step, cs[1..], step(cs[0], s))
  }

  lemma {:induction false} FoldFirst<C, S>(step: (C, S) -> S, c: C, cs: seq<C>, s: S)
    ensures Fold(step, [c] + cs, s) == Fold(step, cs, step(c, s)) && Fold(step, [c], s) == step(c, s)
  {
    assert ([c] + cs)[1..] == cs && [c][1..] == [];
  }

  lemma {:induction false} FoldTwo<C, S>(step: (C, S) -> S, a: C, b: C, s: S)
    ensures Fold(step, [a, b], s) == step(b, step(a, s))
  {
    assert [a, b] == [a] + [b];
    FoldFirst(step, a, [b], s);
    FoldFirst(step, b, [], step(a, s));
  }

  lemma {:induction false} FoldThree<C, S>(step: (C, S) -> S, a: C, b: C, c: C, s: S)
    ensures Fold(step, [a, b, c], s) == step(c, step(b, step(a, s)))
  {
    assert [a, b, c] == [a] + [b, c];
    FoldFirst(step, a, [b, c], s);
    FoldTwo(step, b, c, step(a, s));
  }

  lemma {:induction false} FoldFour<C, S>(step: (C, S) -> S, a: C, b: C, c: C, d: C, s: S)
    ensures Fold(step, [a, b, c, d], s) == step(d, step(c, step(b, step(a, s))))
  {
    assert [a, b, c, d] == [a] + [b, c, d];
    FoldFirst(step, a, [b, c, d], s);
    FoldThree(step, b, c, d, step(a, s));
  }

  lemma {:induction false} FoldFive<C, S>(step: (C, S) -> S, a: C, b: C, c: C, d: C, e: C, s: S)
    ensures Fold(step, [a, b, c, d, e], s) == step(e, step(d, step(c, step(b, step(a, s)))))
  {
    assert [a, b, c, d, e] == [a] + [b, c, d, e];
    FoldFirst(step, a, [b, c, d, e], s);
    FoldFour(step, b, c, d, e, step(a, s));
  }

  /** The instruction leaves the program counter past it. */
  predicate Falls(i: Core) {
    match i
    case MovMR(_, _) => true
    case AddPc(_) => false
    case FlagToX(_) => true
    case OnR0(_) => true
    case _ => i.x != PC
  }

  /** All cells but the last fall through. */
  predicate Straight(cells: seq<Cell>) {
    forall k :: 0 <= k < |cells| - 1 ==> Falls(cells[k].core)
  }

  lemma {:induction false} StraightRuns(code: seq<Cell>, pos: nat, cells: seq<Cell>, s: State)
    requires At(code, pos, cells) && Straight(cells) && s.pc == pos && pos + |cells| <= 0xFFFF
    ensures Run(code, s, |cells|) == Some(DoAll(cells, s))
    decreases |cells|
  {
    hide Effect;
    if |cells| > 0 {
      var t := Do(cells[0], s);
      FoldFirst(Do, cells[0], cells[1..], s);
      assert code[pos] == cells[0] && cells == [cells[0]] + cells[1..];
      if |cells| > 1 {
        FallsThrough(cells[0], s);
        AtSplit(code, pos, [cells[0]], cells[1..]);
        StraightRuns(code, pos + 1, cells[1..], t);
      }
      assert Run(code, s, |cells|) == Run(code, t, |cells| - 1);
    }
  }

  lemma FallsThrough(cell: Cell, s: State)
    requires Falls(cell.core)
    ensures Do(cell, s).pc == Add(s.pc, 1)
  {
  }

  lemma {:induction false} DoAppend(a: seq<Cell>, b: seq<Cell>, s: State)
    ensures DoAll(a + b, s) == DoAll(b, DoAll(a, s))
    decreases |a|
  {
    hide Do;
    if a == [] {
      assert a + b == b;
    } else {
      assert (a + b)[1..] == a[1..] + b;
      DoAppend(a[1..], b, Do(a[0], s));
    }
  }
}
