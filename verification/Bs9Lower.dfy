/** Lowering of operation lists to words and assembler lines, in the compiler's two passes. */
module Bs9Lower {
  import opened Options
  import opened Words
  import opened Bs9Isa
  import opened Bs9Ops
  import opened Bs9Gen
  import Asm = Bs9Asm
  import Dis = Bs9Dis

  /** A parsed function: its operations end with the return label and the epilogue. */
  datatype Unit = Unit(name: string, params: nat, locals: nat, ops: seq<Op>)

  /** What the final program holds: labels, and words with the assembler statement printed for each. */
  datatype Item = Label(l: Label) | Word(i: Instr, text: Asm.Stmt)

  type Naming = Label -> string

  // ----- assembler text -----

  function CondNumber(c: Cond): Asm.CondCode {
    match c
    case Al => 0
    case Eq => 3
    case Ne => 4
    case Ge => 5
    case Ls => 6
  }

  function TwoRegs(op: nat, dm: bool, d: Asm.Reg, sm: bool, s: Asm.Reg): Asm.Stmt {
    Asm.Code(Asm.Generic(op), Some(0), [Dis.RegMemOperand(dm, d), Dis.RegMemOperand(sm, s)])
  }

  function JmpText(c: Cond, target: Asm.Sum): Asm.Stmt {
    Asm.Code(Asm.JmpMn, Some(CondNumber(c)), [Asm.Operand(None, None, target)])
  }

  /** The line printed for an instruction at an address; jumps name their absolute target. */
  function Text(i: Instr, pos: nat): Asm.Stmt {
    match i
    case Ar0(imm, shift) =>
      Asm.Code(Asm.Ar0Mn, Some(0), [Dis.Number(if shift then imm * 16 else imm), Dis.Number(Asm.Bit(shift))])
    case CpyRR(d, s) => TwoRegs(0, false, d, false, s)
    case CpyRM(d, a) => TwoRegs(0, false, d, true, a)
    case CpyMR(a, s) => TwoRegs(0, true, a, false, s)
    case AddRR(d, s) => TwoRegs(2, false, d, false, s)
    case SubRR(d, s) => TwoRegs(3, false, d, false, s)
    case AndRR(d, s) => TwoRegs(4, false, d, false, s)
    case OrRR(d, s) => TwoRegs(5, false, d, false, s)
    case XorR0(s) => Asm.Code(Asm.Special(0x06, 1, Asm.ImplicitR0), Some(0), [Dis.RegOperand(s)])
    case CpyPc(s) => TwoRegs(0, false, 15, false, s)
    case Jmp(c, off) => JmpText(c, Dis.Number((pos + 1 + off) % 0x10000).expr)
  }

  function Printed(block: seq<Instr>, pos: nat): (items: seq<Item>)
    ensures |items| == |block|
    ensures forall k :: 0 <= k < |block| ==> items[k] == Word(block[k], Text(block[k], pos + k))
    decreases |block|
  {
    if block == [] then [] else [Word(block[0], Text(block[0], pos))] + Printed(block[1..], pos + 1)
  }

  /** The first jump of a comparison is printed with a leftover label name before its target. */
  const LeftoverName: string := "__bool_true"

  function OpItems(op: Op, pos: nat, tab: Table, naming: Naming): seq<Item>
    requires Lowerable(op, pos, tab)
  {
    var items := Printed(Expand(op, pos, tab), pos);
    match op
    case Mark(l) => [Label(l)]
    case JmpRel(c, l) =>
      [Word(items[0].i, JmpText(c, [Asm.Signed(false, Asm.Sym(naming(l)))]))]
    case BoolFromFlags(_) =>
      var jmp := items[0].i;
      var leftover := [Asm.Signed(false, Asm.Sym(LeftoverName))];
      [Word(jmp, JmpText(jmp.cond, leftover + Dis.Number((pos + 6) % 0x10000).expr))] + items[1..]
    case _ => items
  }

  // ----- the two passes as functions -----

  /** Pass 1 records a text and its address; a lookup finds the first record of a text. */
  ghost function RecordText(tab: Table, name: string, pos: Word, naming: Naming): Table {
    imap l | l in tab || naming(l) == name :: if l in tab then tab[l] else pos
  }

  ghost function RecordOne(tab: Table, l: Bs9Ops.Label, pos: nat, naming: Naming): Table {
    RecordText(tab, naming(l), pos % 0x10000, naming)
  }

  ghost function Record(tab: Table, ops: seq<Op>, pos: nat, naming: Naming): Table
    decreases |ops|
  {
    if ops == [] then tab
    else Record(if ops[0].Mark? then RecordOne(tab, ops[0].l, pos, naming) else tab, ops[1..], pos + OpSize(ops[0]), naming)
  }

  /** Pass 2; no result if the compiler stops with an error. */
  function EmitOps(ops: seq<Op>, pos: nat, tab: Table, naming: Naming): Option<seq<Item>>
    decreases |ops|
  {
    if ops == [] then Some([])
    else if !Lowerable(ops[0], pos, tab) then None
    else
      var rest := EmitOps(ops[1..], pos + OpSize(ops[0]), tab, naming);
      if rest.None? then None else Some(OpItems(ops[0], pos, tab, naming) + rest.value)
  }

  function UnitOps(u: Unit): seq<Op>
    requires u.params <= MaxArgs
  {
    [Mark(Func(u.name))] + Plain(Entry(u.locals) + Spills(0, u.params)) + u.ops
  }

  function AllUnitOps(us: seq<Unit>): seq<Op>
    requires forall u :: u in us ==> u.params <= MaxArgs
  {
    if us == [] then [] else AllUnitOps(us[..|us| - 1]) + UnitOps(us[|us| - 1])
  }

  function ProgramOps(us: seq<Unit>, stack: Word): seq<Op>
    requires forall u :: u in us ==> u.params <= MaxArgs
  {
    [Mark(Start)] + StartOps(stack) + AllUnitOps(us)
  }

  function CodeOf(items: seq<Item>): seq<Instr> {
    if items == [] then []
    else (if items[0].Word? then [items[0].i] else []) + CodeOf(items[1..])
  }

  function LineOf(item: Item, naming: Naming): Asm.SrcLine {
    match item
    case Label(l) => Asm.SrcLine([naming(l)], None)
    case Word(_, text) => Asm.SrcLine([], Some(text))
  }

  function LinesOf(items: seq<Item>, naming: Naming): seq<Asm.SrcLine> {
    seq(|items|, k requires 0 <= k < |items| => LineOf(items[k], naming))
  }

  // ----- layout: pass 1 and pass 2 agree -----

  lemma {:induction false} CodeAppend(a: seq<Item>, b: seq<Item>)
    ensures CodeOf(a + b) == CodeOf(a) + CodeOf(b)
  {
    if a == [] {
      assert a + b == b;
    } else {
      var head := if a[0].Word? then [a[0].i] else [];
      assert (a + b)[0] == a[0] && (a + b)[1..] == a[1..] + b;
      CodeAppend(a[1..], b);
      assert head + (CodeOf(a[1..]) + CodeOf(b)) == (head + CodeOf(a[1..])) + CodeOf(b);
    }
  }

  lemma {:induction false} CodeOfPrinted(block: seq<Instr>, pos: nat)
    ensures CodeOf(Printed(block, pos)) == block
    decreases |block|
  {
    if block != [] {
      assert Printed(block, pos)[1..] == Printed(block[1..], pos + 1);
      CodeOfPrinted(block[1..], pos + 1);
    }
  }

  lemma CodeOfOp(op: Op, pos: nat, tab: Table, naming: Naming)
    requires Lowerable(op, pos, tab)
    ensures CodeOf(OpItems(op, pos, tab, naming)) == Expand(op, pos, tab)
  {
    hide Text, JmpText, Expand;
    var block := Expand(op, pos, tab);
    ExpandSize(op, pos, tab);
    CodeOfPrinted(block, pos);
    match op
    case Mark(l) => assert block == [];
    case JmpRel(_, _) => OneWord(OpItems(op, pos, tab, naming)[0]); assert block == [block[0]];
    case BoolFromFlags(_) =>
      var items := Printed(block, pos);
      var head := OpItems(op, pos, tab, naming)[0];
      assert items == [items[0]] + items[1..];
      CodeAppend([items[0]], items[1..]);
      CodeAppend([head], items[1..]);
      OneWord(items[0]);
      OneWord(head);
    case _ =>
  }

  lemma OneWord(item: Item)
    requires item.Word?
    ensures CodeOf([item]) == [item.i]
  {
    assert [item][1..] == [];
  }

  /** Every operation list: pass 2 emits as many words as pass 1 counted, for the whole list and up to every
      operation of it. */
  lemma {:induction false} PassesAgree(ops: seq<Op>, k: nat, pos: nat, tab: Table, naming: Naming)
    requires EmitOps(ops, pos, tab, naming).Some? && k <= |ops|
    ensures |CodeOf(EmitOps(ops, pos, tab, naming).value)| == Size(ops)
    ensures var before := EmitOps(ops[..k], pos, tab, naming);
            before.Some? && |CodeOf(before.value)| == Size(ops[..k])
            && before.value <= EmitOps(ops, pos, tab, naming).value
    decreases |ops|
  {
    hide OpItems, CodeOf, OpSize;
    if ops == [] {
      NoCode();
    } else {
      var pos' := pos + OpSize(ops[0]);
      PassesAgree(ops[1..], if k == 0 then 0 else k - 1, pos', tab, naming);
      FirstOpAgrees(ops, pos, tab, naming);
      if k > 0 {
        assert ops[..k][1..] == ops[1..][..k - 1];
        FirstOpAgrees(ops[..k], pos, tab, naming);
      } else {
        assert ops[..k] == [];
        NoCode();
      }
    }
  }

  lemma NoCode()
    ensures CodeOf([]) == []
  {
  }

  /** The first operation takes the words counted for it, in front of the others. */
  lemma FirstOpAgrees(ops: seq<Op>, pos: nat, tab: Table, naming: Naming)
    requires ops != [] && Lowerable(ops[0], pos, tab)
    requires EmitOps(ops[1..], pos + OpSize(ops[0]), tab, naming).Some?
    ensures var items := EmitOps(ops, pos, tab, naming);
            && items.Some?
            && items.value == OpItems(ops[0], pos, tab, naming)
                              + EmitOps(ops[1..], pos + OpSize(ops[0]), tab, naming).value
            && |CodeOf(items.value)| ==
                 OpSize(ops[0]) + |CodeOf(EmitOps(ops[1..], pos + OpSize(ops[0]), tab, naming).value)|
  {
    hide OpItems, CodeOf, OpSize;
    CodeOfOp(ops[0], pos, tab, naming);
    ExpandSize(ops[0], pos, tab);
    CodeAppend(OpItems(ops[0], pos, tab, naming), EmitOps(ops[1..], pos + OpSize(ops[0]), tab, naming).value);
  }
}
