/** The compiler's intermediate operations, the instruction template each one is lowered to,
    and what it means for a list of operations to lie in the code at an address. */
module Bs9Ops {
  import opened Options
  import opened Words
  import opened Bs9Isa

  /** Labels by what they mark. The compiler knows them by their texts only. */
  datatype Label =
    | Start
    | Func(name: string)
    | End(name: string)
    | Else(n: nat)
    | IfEnd(n: nat)
    | Top(n: nat)
    | Wend(n: nat)

  datatype Op =
    | Ins(i: Instr)
    | Mark(l: Label)
    | Comment
    | JmpRel(cond: Cond, l: Label)
    | Jabs(l: Label)
    | JabsIfZero(l: Label)
    | JabsIfNz(l: Label)
    | Call(l: Label)
    | Ret
    | Halt
    | LoadSlot(slot: nat)
    | StoreSlot(slot: nat)
    | PushR0
    | PopReg(r: Dst)
    | BoolFromFlags(cond: Cond)
    | BoolNot
    | BoolLe
    | BoolGt
    | Nop

  /** Where each label is; labels of one text are in one place. */
  type Table = imap<Label, Word>

  function OpSize(op: Op): nat {
    match op
    case Mark(_) => 0
    case Comment => 0
    case Ins(_) => 1
    case JmpRel(_, _) => 1
    case Nop => 1
    case LoadSlot(_) => 7
    case StoreSlot(_) => 9
    case PushR0 => 2
    case PopReg(_) => 2
    case BoolFromFlags(_) => 10
    case BoolNot => 11
    case BoolLe => 11
    case BoolGt => 16
    case Jabs(_) => 5
    case JabsIfZero(_) => 7
    case JabsIfNz(_) => 7
    case Call(_) => 5
    case Ret => 6
    case Halt => 5
  }

  function Size(ops: seq<Op>): nat {
    if ops == [] then 0 else OpSize(ops[0]) + Size(ops[1..])
  }

  /** R0 := v, through R1. */
  function Const(v: Word): (b: seq<Instr>)
    ensures |b| == 4
  {
    [Ar0(v / 16, true), CpyRR(1, 0), Ar0(v % 16, false), OrRR(0, 1)]
  }

  function Goto(target: Word): seq<Instr> {
    Const(target) + [CpyPc(0)]
  }

  function SlotConst(slot: nat): Word { (slot + 1) % 0x10000 }

  /** R0 := v when entered at the top, R0 := w when entered five words further on. */
  function Either(v: Word, w: Word): (b: seq<Instr>)
    ensures |b| == 9
  {
    ConstSkip(v, 4) + Const(w)
  }

  function ConstSkip(v: Word, off: Offset): (b: seq<Instr>)
    ensures |b| == 5
  {
    Const(v) + [Jmp(Al, off)]
  }

  function OnFlag(c: Cond, v: Word, w: Word): (b: seq<Instr>)
    ensures |b| == 10
  {
    [Jmp(c, 5)] + Either(v, w)
  }

  const RetBlock: seq<Instr> :=
    [CpyRR(SP, FP), CpyRM(LINK, SP), AddRR(SP, ONE), CpyRM(FP, SP), AddRR(SP, ONE), CpyPc(LINK)]

  function Target(op: Op): Option<Label> {
    match op
    case JmpRel(_, l) => Some(l)
    case Jabs(l) => Some(l)
    case JabsIfZero(l) => Some(l)
    case JabsIfNz(l) => Some(l)
    case Call(l) => Some(l)
    case _ => None
  }

  /** Lowering stops with an error message on any other operation. */
  predicate Lowerable(op: Op, pos: nat, tab: Table) {
    !op.Comment?
    && (Target(op).Some? ==> Target(op).value in tab)
    && (op.JmpRel? ==> -128 <= tab[op.l] - (pos + 1) <= 127)
  }

  function Expand(op: Op, pos: nat, tab: Table): seq<Instr>
    requires Lowerable(op, pos, tab)
  {
    match op
    case Mark(_) => []
    case Ins(i) => [i]
    case JmpRel(c, l) => [Jmp(c, tab[l] - (pos + 1))]
    case Jabs(l) => Goto(tab[l])
    case JabsIfZero(l) => [SubRR(0, ZERO), Jmp(Ne, 5)] + Goto(tab[l])
    case JabsIfNz(l) => [SubRR(0, ZERO), Jmp(Eq, 5)] + Goto(tab[l])
    case Call(l) => Goto(tab[l])
    case Ret => RetBlock
    case Halt => Goto(0xFFFF)
    case LoadSlot(n) => Const(SlotConst(n)) + [CpyRR(8, FP), SubRR(8, 0), CpyRM(0, 8)]
    case StoreSlot(n) =>
      [CpyRR(2, 0)] + Const(SlotConst(n)) + [CpyRR(8, FP), SubRR(8, 0), CpyRR(0, 2), CpyMR(8, 0)]
    case PushR0 => [SubRR(SP, ONE), CpyMR(SP, 0)]
    case PopReg(r) => [CpyRM(r, SP), AddRR(SP, ONE)]
    case BoolFromFlags(c) => OnFlag(if c.Eq? || c.Ne? || c.Ge? then c else Ls, 0, 1)
    case BoolNot => [SubRR(0, ZERO), Jmp(Ne, 5)] + Either(1, 0)
    case BoolLe => [Jmp(Ls, 6), Jmp(Eq, 5)] + Either(0, 1)
    case BoolGt =>
      [Jmp(Ge, 5)] + (ConstSkip(0, 10) + OnFlag(Eq, 1, 0))
    case Nop => [CpyRR(0, 0)]
  }

  /** The size pass 1 reserves for an operation is the number of words pass 2 writes for it. */
  lemma ExpandSize(op: Op, pos: nat, tab: Table)
    requires Lowerable(op, pos, tab)
    ensures |Expand(op, pos, tab)| == OpSize(op)
  {
  }

  ghost predicate At(code: seq<Instr>, pos: nat, block: seq<Instr>) {
    pos + |block| <= |code| && forall j :: pos <= j < pos + |block| ==> code[j] == block[j - pos]
  }

  ghost predicate OpAt(code: seq<Instr>, pos: nat, op: Op, tab: Table) {
    && Lowerable(op, pos, tab)
    && (op.Mark? ==> op.l in tab && tab[op.l] == pos)
    && At(code, pos, Expand(op, pos, tab))
  }

  ghost predicate CodeAt(code: seq<Instr>, pos: nat, ops: seq<Op>, tab: Table)
    decreases |ops|
  {
    if ops == [] then pos <= |code|
    else OpAt(code, pos, ops[0], tab) && CodeAt(code, pos + OpSize(ops[0]), ops[1..], tab)
  }

  lemma {:induction false} SizeAppend(a: seq<Op>, b: seq<Op>)
    ensures Size(a + b) == Size(a) + Size(b)
  {
    if a == [] {
      assert a + b == b;
    } else {
      assert (a + b)[1..] == a[1..] + b;
      SizeAppend(a[1..], b);
    }
  }

  lemma {:induction false} CodeAtFits(code: seq<Instr>, pos: nat, ops: seq<Op>, tab: Table)
    ensures CodeAt(code, pos, ops, tab) ==> pos + Size(ops) <= |code|
    decreases |ops|
  {
    if ops != [] {
      CodeAtFits(code, pos + OpSize(ops[0]), ops[1..], tab);
    }
  }

  lemma {:induction false} CodeAtCons(code: seq<Instr>, pos: nat, op: Op, ops: seq<Op>, tab: Table)
    ensures CodeAt(code, pos, [op] + ops, tab) <==>
            OpAt(code, pos, op, tab) && CodeAt(code, pos + OpSize(op), ops, tab)
  {
    assert ([op] + ops)[1..] == ops;
  }

  lemma {:induction false} CodeAtAppend(code: seq<Instr>, pos: nat, a: seq<Op>, b: seq<Op>, tab: Table)
    ensures CodeAt(code, pos, a + b, tab) <==>
            CodeAt(code, pos, a, tab) && CodeAt(code, pos + Size(a), b, tab)
    decreases |a|
  {
    hide OpAt;
    if a == [] {
      assert a + b == b;
      CodeAtFits(code, pos, b, tab);
    } else {
      CodeAtAppend(code, pos + OpSize(a[0]), a[1..], b, tab);
      CodeAtCons(code, pos, a[0], a[1..] + b, tab);
      CodeAtCons(code, pos, a[0], a[1..], tab);
      assert a + b == [a[0]] + (a[1..] + b);
      assert a == [a[0]] + a[1..];
    }
  }

  lemma Split(code: seq<Instr>, pos: nat, a: seq<Op>, b: seq<Op>, tab: Table)
    requires CodeAt(code, pos, a + b, tab)
    ensures CodeAt(code, pos, a, tab) && CodeAt(code, pos + Size(a), b, tab)
    ensures Size(a + b) == Size(a) + Size(b)
  {
    hide CodeAt;
    CodeAtAppend(code, pos, a, b, tab);
    SizeAppend(a, b);
  }

  lemma {:induction false} One(code: seq<Instr>, pos: nat, op: Op, tab: Table)
    requires CodeAt(code, pos, [op], tab)
    ensures OpAt(code, pos, op, tab) && Size([op]) == OpSize(op)
  {
    assert Size([op][1..]) == 0;
  }

  /** Operations that are plain instructions. */
  function Plain(block: seq<Instr>): (ops: seq<Op>)
    ensures |ops| == |block| && Size(ops) == |block|
    ensures forall k :: 0 <= k < |block| ==> ops[k] == Ins(block[k])
  {
    if block == [] then [] else [Ins(block[0])] + Plain(block[1..])
  }

  lemma {:induction false} PlainAppend(a: seq<Instr>, b: seq<Instr>)
    ensures Plain(a + b) == Plain(a) + Plain(b)
  {
    if a == [] {
      assert a + b == b;
    } else {
      assert (a + b)[1..] == a[1..] + b;
      PlainAppend(a[1..], b);
    }
  }

  lemma InsExpands(i: Instr, pos: nat, tab: Table)
    ensures Lowerable(Ins(i), pos, tab) && Expand(Ins(i), pos, tab) == [i] && OpSize(Ins(i)) == 1
  {
  }

  lemma {:induction false} PlainAt(code: seq<Instr>, pos: nat, block: seq<Instr>, tab: Table)
    requires CodeAt(code, pos, Plain(block), tab)
    ensures At(code, pos, block)
    decreases |block|
  {
    hide Expand, OpSize, Lowerable;
    if block != [] {
      var ops := Plain(block);
      assert ops[1..] == Plain(block[1..]);
      InsExpands(block[0], pos, tab);
      PlainAt(code, pos + 1, block[1..], tab);
    }
  }

  lemma AtSlice(code: seq<Instr>, pos: nat, a: seq<Instr>, b: seq<Instr>)
    requires At(code, pos, a + b)
    ensures At(code, pos, a) && At(code, pos + |a|, b)
  {
    forall j | pos <= j < pos + |a|
      ensures code[j] == a[j - pos]
    {
      assert code[j] == (a + b)[j - pos];
    }
    forall j | pos + |a| <= j < pos + |a| + |b|
      ensures code[j] == b[j - (pos + |a|)]
    {
      assert code[j] == (a + b)[j - pos];
    }
  }

  lemma AtHead(code: seq<Instr>, pos: nat, i: Instr, rest: seq<Instr>)
    requires At(code, pos, [i] + rest)
    ensures pos < |code| && code[pos] == i && At(code, pos + 1, rest)
  {
    AtSlice(code, pos, [i], rest);
  }

  lemma AtFits(code: seq<Instr>, pos: nat, block: seq<Instr>)
    requires At(code, pos, block)
    ensures pos + |block| <= |code|
  {
  }
}
