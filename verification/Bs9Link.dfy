/** The assembly text a compiled program prints: when it assembles, and to which words. */
module Bs9Link {
  import opened Options
  import opened Words
  import opened Bs9Isa
  import opened Bs9Ops
  import opened Bs9Source
  import opened Bs9Gen
  import opened Bs9Lower
  import opened Bs9Layout
  import Asm = Bs9Asm
  import Agree = Bs9AsmAgree
  import Dis = Bs9Dis
  import Forms = Bs9Forms

  /** The word that carries an instruction. */
  function WordOf(i: Instr): Word {
    match i
    case Ar0(imm, shift) => Asm.Ar0Word(imm, shift)
    case CpyRR(d, s) => Asm.GenericWord(0, 0, false, d, false, s)
    case CpyRM(d, a) => Asm.GenericWord(0, 0, false, d, true, a)
    case CpyMR(b, s) => Asm.GenericWord(0, 0, true, b, false, s)
    case AddRR(d, s) => Asm.GenericWord(0, 2, false, d, false, s)
    case SubRR(d, s) => Asm.GenericWord(0, 3, false, d, false, s)
    case AndRR(d, s) => Asm.GenericWord(0, 4, false, d, false, s)
    case OrRR(d, s) => Asm.GenericWord(0, 5, false, d, false, s)
    case XorR0(s) => Asm.SpecialWord(0, 6, 1, s)
    case CpyPc(s) => Asm.GenericWord(0, 0, false, 15, false, s)
    case Jmp(c, off) => Asm.JmpWord(CondNumber(c), off)
  }

  // ----- the words say the instructions -----

  /** The conditions of the instruction table by their numbers. */
  function CondOf(n: nat): Option<Cond> {
    match n case 0 => Some(Al) case 3 => Some(Eq) case 4 => Some(Ne) case 5 => Some(Ge) case 6 => Some(Ls) case _ => None
  }

  function TwoRegsOf(op: nat, dm: bool, d: nat, sm: bool, s: Src): Option<Instr> {
    if op == 0 && !dm && !sm && d == 15 then Some(CpyPc(s))
    else if d >= 12 then None
    else if op == 0 && !dm then Some(if sm then CpyRM(d, s) else CpyRR(d, s))
    else if op == 0 && !sm then Some(CpyMR(d, s))
    else if dm || sm then None
    else match op
         case 2 => Some(AddRR(d, s))
         case 3 => Some(SubRR(d, s))
         case 4 => Some(AndRR(d, s))
         case 5 => Some(OrRR(d, s))
         case _ => None
  }

  /** The instruction a word is read as, field by field, if it is one of those compiled programs use. */
  function InstrOf(w: Word): Option<Instr> {
    if Dis.CondOf(w) == 7 then Some(Forms.Ar0Of(w))
    else if Dis.IsJmpWord(w) then
      var c := CondOf(Dis.CondOf(w));
      if c.Some? then Some(Jmp(c.value, Dis.JmpRel(w))) else None
    else if Dis.CondOf(w) != 0 || Dis.Low4(w) >= 14 then None
    else if Dis.Base7(w) == 6 then (if Dis.SubOp(w) == 1 then Some(XorR0(Dis.Low4(w))) else None)
    else TwoRegsOf(Dis.OpOf(w), Dis.DstMem(w), Dis.DstOf(w), Dis.SrcMem(w), Dis.Low4(w))
  }

  /** Every instruction comes back from its word. */
  lemma WordSays(i: Instr)
    ensures InstrOf(WordOf(i)) == Some(i)
  {
    hide Asm.GenericWord, Asm.SpecialWord, Asm.JmpWord, Asm.Ar0Word, InstrOf;
    match i
    case Ar0(imm, shift) => Ar0Says(imm, shift);
    case Jmp(c, off) => JmpSays(c, off);
    case XorR0(s) => XorSays(s);
    case CpyRR(d, s) => TwoRegsSay(0, false, d, false, s);
    case CpyRM(d, a) => TwoRegsSay(0, false, d, true, a);
    case CpyMR(b, s) => TwoRegsSay(0, true, b, false, s);
    case AddRR(d, s) => TwoRegsSay(2, false, d, false, s);
    case SubRR(d, s) => TwoRegsSay(3, false, d, false, s);
    case AndRR(d, s) => TwoRegsSay(4, false, d, false, s);
    case OrRR(d, s) => TwoRegsSay(5, false, d, false, s);
    case CpyPc(s) => TwoRegsSay(0, false, 15, false, s);
  }

  lemma Ar0Says(imm: Imm12, shift: bool)
    ensures InstrOf(Asm.Ar0Word(imm, shift)) == Some(Ar0(imm, shift))
  {
    hide Asm.Ar0Word, Dis.CondOf;
    Forms.Ar0Is(Asm.Ar0Word(imm, shift), imm, shift);
  }

  lemma JmpSays(c: Cond, off: Offset)
    ensures InstrOf(Asm.JmpWord(CondNumber(c), off)) == Some(Jmp(c, off))
  {
    hide Asm.JmpWord, Dis.CondOf, Dis.IsJmpWord, Dis.JmpRel;
    Forms.JmpHas(Asm.JmpWord(CondNumber(c), off), CondNumber(c), off);
  }

  lemma XorSays(s: Src)
    ensures InstrOf(Asm.SpecialWord(0, 6, 1, s)) == Some(XorR0(s))
  {
    hide Asm.SpecialWord, Dis.CondOf, Dis.IsJmpWord, Dis.Base7, Dis.SubOp, Dis.Low4, Dis.OpOf, Dis.DstOf;
    var w := Asm.SpecialWord(0, 6, 1, s);
    Forms.SpecialIs(w, 0, 6, 1, s);
    Dis.Fields(w);
    Dis.JmpFields(w);
  }

  lemma TwoRegsSay(op: nat, dm: bool, d: Asm.Reg, sm: bool, s: Src)
    requires op < 6 && d != 12 && d != 13
    ensures InstrOf(Asm.GenericWord(0, op, dm, d, sm, s)) == TwoRegsOf(op, dm, d, sm, s)
  {
    hide Asm.GenericWord, Dis.CondOf, Dis.IsJmpWord, Dis.Base7, Dis.Low4, Dis.OpOf, Dis.DstOf, Dis.DstMem, Dis.SrcMem;
    hide TwoRegsOf;
    var w := Asm.GenericWord(0, op, dm, d, sm, s);
    Forms.GenericIs(w, 0, op, dm, d, sm, s);
    Dis.Fields(w);
    Dis.JmpFields(w);
  }

  predicate ReadsTo(syms: Asm.Symbols, pos: nat, t: Asm.Stmt, w: Word) {
    pos < 0x10000 && t.Code? && Dis.Reread(syms, pos, t) == Asm.Enc(w)
  }

  predicate Refused(syms: Asm.Symbols, pos: nat, t: Asm.Stmt) {
    pos < 0x10000 && t.Code? && Dis.Reread(syms, pos, t) == Asm.Rejected
  }

  predicate Inside(i: Instr, pos: nat) { i.Jmp? ==> 0 <= pos + 1 + i.off <= 0xFFFF }

  /** The absolute target printed for a jump is the offset it needs at its address. */
  lemma TextReads(i: Instr, pos: nat, syms: Asm.Symbols)
    requires pos < 0x10000 && Inside(i, pos)
    ensures ReadsTo(syms, pos, Text(i, pos), WordOf(i))
  {
    hide ReadsTo, TwoRegs, Asm.GenericWord, JmpText;
    match i
    case Ar0(imm, shift) => Ar0Reads(imm, shift, pos, syms);
    case Jmp(c, off) => JmpReads(c, off, pos, syms);
    case XorR0(s) => XorReads(s, pos, syms);
    case CpyRR(d, s) => TwoRegsRead(0, false, d, false, s, pos, syms);
    case CpyRM(d, a) => TwoRegsRead(0, false, d, true, a, pos, syms);
    case CpyMR(b, s) => TwoRegsRead(0, true, b, false, s, pos, syms);
    case AddRR(d, s) => TwoRegsRead(2, false, d, false, s, pos, syms);
    case SubRR(d, s) => TwoRegsRead(3, false, d, false, s, pos, syms);
    case AndRR(d, s) => TwoRegsRead(4, false, d, false, s, pos, syms);
    case OrRR(d, s) => TwoRegsRead(5, false, d, false, s, pos, syms);
    case CpyPc(s) => TwoRegsRead(0, false, 15, false, s, pos, syms);
  }

  lemma TwoRegsRead(op: nat, dm: bool, d: Asm.Reg, sm: bool, s: Asm.Reg, pos: nat, syms: Asm.Symbols)
    requires op < 6 && pos < 0x10000 && d != 12 && d != 13
    ensures ReadsTo(syms, pos, TwoRegs(op, dm, d, sm, s), Asm.GenericWord(0, op, dm, d, sm, s))
  {
    hide Asm.GenericWord;
  }

  lemma Ar0Reads(imm: Imm12, shift: bool, pos: nat, syms: Asm.Symbols)
    requires pos < 0x10000
    ensures ReadsTo(syms, pos, Text(Ar0(imm, shift), pos), WordOf(Ar0(imm, shift)))
  {
    hide Asm.Eval, Dis.Number;
    Dis.NumberValue(syms, if shift then imm * 16 else imm);
    Dis.NumberValue(syms, Asm.Bit(shift));
  }

  lemma JmpReads(c: Cond, off: Offset, pos: nat, syms: Asm.Symbols)
    requires pos < 0x10000 && 0 <= pos + 1 + off <= 0xFFFF
    ensures ReadsTo(syms, pos, Text(Jmp(c, off), pos), WordOf(Jmp(c, off)))
  {
    hide Asm.Eval, Asm.JmpWord, Dis.Number;
    Dis.NumberValue(syms, pos + 1 + off);
    NumberAlone(pos + 1 + off);
  }

  lemma NumberAlone(v: int)
    ensures Dis.Number(v) == Asm.Operand(None, None, Dis.Number(v).expr)
  {
  }

  lemma XorReads(s: Src, pos: nat, syms: Asm.Symbols)
    requires pos < 0x10000
    ensures ReadsTo(syms, pos, Text(XorR0(s), pos), WordOf(XorR0(s)))
  {
    hide Asm.SpecialWord;
  }

  /** With or without R0 before the register, the word is that of the instruction. */
  lemma XorForms(r0: Asm.Operand, x: Asm.Operand, s: Src, pos: nat, syms: Asm.Symbols)
    requires pos < 0x10000 && r0.reg == Some(0) && x.reg == Some(s)
    ensures var xor := Asm.Special(6, 1, Asm.ImplicitR0);
            && ReadsTo(syms, pos, Asm.Code(xor, Some(0), [x]), WordOf(XorR0(s)))
            && ReadsTo(syms, pos, Asm.Code(xor, Some(0), [r0, x]), WordOf(XorR0(s)))
  {
    hide Asm.SpecialWord;
  }

  // ----- texts and labels of an item list -----

  function Texts(items: seq<Item>): seq<Asm.Stmt> {
    if items == [] then []
    else (if items[0].Word? then [items[0].text] else []) + Texts(items[1..])
  }

  function Named(items: seq<Item>): seq<Bs9Ops.Label> {
    if items == [] then []
    else (if items[0].Label? then [items[0].l] else []) + Named(items[1..])
  }

  lemma {:induction false} TextsAppend(a: seq<Item>, b: seq<Item>)
    ensures Texts(a + b) == Texts(a) + Texts(b) && Named(a + b) == Named(a) + Named(b)
  {
    hide *;
    TextAppend(a, b);
    NameAppend(a, b);
  }

  lemma {:induction false} TextsCons(x: Item, rest: seq<Item>)
    ensures Texts([x] + rest) == (if x.Word? then [x.text] else []) + Texts(rest)
    ensures Named([x] + rest) == (if x.Label? then [x.l] else []) + Named(rest)
  {
    assert ([x] + rest)[1..] == rest;
  }

  lemma {:induction false} TextAppend(a: seq<Item>, b: seq<Item>)
    ensures Texts(a + b) == Texts(a) + Texts(b)
    decreases |a|
  {
    hide Texts, Named;
    if a == [] {
      assert a + b == b;
      TextsNone();
    } else {
      var rest := a[1..];
      assert a == [a[0]] + rest && a + b == [a[0]] + (rest + b);
      TextsCons(a[0], rest);
      TextsCons(a[0], rest + b);
      TextAppend(rest, b);
    }
  }

  lemma {:induction false} NameAppend(a: seq<Item>, b: seq<Item>)
    ensures Named(a + b) == Named(a) + Named(b)
    decreases |a|
  {
    hide Texts, Named;
    if a == [] {
      assert a + b == b;
      TextsNone();
    } else {
      var rest := a[1..];
      assert a == [a[0]] + rest && a + b == [a[0]] + (rest + b);
      TextsCons(a[0], rest);
      TextsCons(a[0], rest + b);
      NameAppend(rest, b);
    }
  }

  lemma TextsNone()
    ensures Texts([]) == [] && Named([]) == []
  {
  }

  lemma TextsOne(item: Item)
    ensures Texts([item]) == if item.Word? then [item.text] else []
    ensures Named([item]) == if item.Label? then [item.l] else []
  {
    assert [item][1..] == [];
  }

  lemma {:induction false} TextsOfPrinted(block: seq<Instr>, pos: nat)
    ensures Named(Printed(block, pos)) == []
    ensures Texts(Printed(block, pos)) == seq(|block|, k requires 0 <= k < |block| => Text(block[k], pos + k))
    decreases |block|
  {
    hide Text, Texts, Named;
    if block == [] {
      TextsNone();
    } else {
      var first, rest := Word(block[0], Text(block[0], pos)), block[1..];
      TextsOfPrinted(rest, pos + 1);
      assert Printed(block, pos) == [first] + Printed(rest, pos + 1);
      TextsCons(first, Printed(rest, pos + 1));
    }
  }

  // ----- how the printed lines read back -----

  /** Texts read back as the words of the code or are refused; all read back if good. */
  ghost predicate ReadBack(syms: Asm.Symbols, pos: nat, ts: seq<Asm.Stmt>, code: seq<Instr>, good: bool) {
    && |ts| == |code|
    && (forall j | 0 <= j < |ts| :: ReadsTo(syms, pos + j, ts[j], WordOf(code[j])) || Refused(syms, pos + j, ts[j]))
    && (good <==> forall j | 0 <= j < |ts| :: ReadsTo(syms, pos + j, ts[j], WordOf(code[j])))
  }

  lemma ReadBackAppend(syms: Asm.Symbols, pos: nat, ts: seq<Asm.Stmt>, code: seq<Instr>, good: bool,
                       ts': seq<Asm.Stmt>, code': seq<Instr>, good': bool)
    requires ReadBack(syms, pos, ts, code, good) && ReadBack(syms, pos + |ts|, ts', code', good')
    ensures ReadBack(syms, pos, ts + ts', code + code', good && good')
  {
    hide ReadsTo, Refused, WordOf;
    var n, all, both := |ts|, ts + ts', code + code';
    forall j | 0 <= j < |all|
      ensures ReadsTo(syms, pos + j, all[j], WordOf(both[j])) || Refused(syms, pos + j, all[j])
      ensures good && good' ==> ReadsTo(syms, pos + j, all[j], WordOf(both[j]))
    {
      if j >= n {
        assert pos + j == pos + n + (j - n) && all[j] == ts'[j - n] && both[j] == code'[j - n];
      }
    }
    if !good {
      var j :| 0 <= j < n && !ReadsTo(syms, pos + j, ts[j], WordOf(code[j]));
      assert all[j] == ts[j] && both[j] == code[j];
    } else if !good' {
      var j :| 0 <= j < |ts'| && !ReadsTo(syms, pos + n + j, ts'[j], WordOf(code'[j]));
      assert all[n + j] == ts'[j] && both[n + j] == code'[j] && pos + n + j == pos + (n + j);
    }
  }

  lemma {:induction false} PrintedReads(syms: Asm.Symbols, pos: nat, block: seq<Instr>)
    requires pos + |block| <= 0x10000 && forall k :: 0 <= k < |block| ==> Inside(block[k], pos + k)
    ensures ReadBack(syms, pos, Texts(Printed(block, pos)), block, true)
  {
    hide Text, ReadsTo, Refused, WordOf;
    TextsOfPrinted(block, pos);
    forall k | 0 <= k < |block|
      ensures ReadsTo(syms, pos + k, Text(block[k], pos + k), WordOf(block[k]))
    {
      TextReads(block[k], pos + k, syms);
    }
  }

  /** Operations the compiler generates: no relative jumps to labels, and no bare jumps. */
  predicate Generated(op: Op) {
    !op.JmpRel? && !op.Comment? && (op.Ins? ==> !op.i.Jmp?)
  }

  predicate JumpsInside(block: seq<Instr>) {
    forall k :: 0 <= k < |block| ==> block[k].Jmp? ==> 0 <= k + 1 + block[k].off <= |block|
  }

  /** The jumps inside a template stay inside it or leave it at its end. */
  lemma TemplateJumps(op: Op, pos: nat, tab: Table)
    requires Lowerable(op, pos, tab) && Generated(op)
    ensures JumpsInside(Expand(op, pos, tab))
  {
    hide Const, Either, ConstSkip, OnFlag;
    match op {
      case Mark(_) =>
      case Ins(_) =>
      case Jabs(l) => ConstJumps(tab[l]);
      case JabsIfZero(l) => ConstJumps(tab[l]);
      case JabsIfNz(l) => ConstJumps(tab[l]);
      case Call(l) => ConstJumps(tab[l]);
      case Ret =>
      case Halt => ConstJumps(0xFFFF);
      case LoadSlot(n) => ConstJumps(SlotConst(n));
      case StoreSlot(n) => ConstJumps(SlotConst(n));
      case PushR0 =>
      case PopReg(_) =>
      case BoolFromFlags(c) => FlagJumps(if c.Eq? || c.Ne? || c.Ge? then c else Ls, 0, 1);
      case BoolNot => EitherJumps(1, 0);
      case BoolLe => EitherJumps(0, 1);
      case BoolGt => SkipJumps(0, 10); FlagJumps(Eq, 1, 0);
      case Nop =>
    }
  }

  lemma ConstJumps(v: Word)
    ensures forall k :: 0 <= k < 4 ==> !Const(v)[k].Jmp?
  {
  }

  lemma SkipJumps(v: Word, off: Offset)
    ensures forall k :: 0 <= k < 5 ==> ConstSkip(v, off)[k].Jmp? ==> k == 4 && ConstSkip(v, off)[k].off == off
  {
    hide Const;
    ConstJumps(v);
  }

  lemma EitherJumps(v: Word, w: Word)
    ensures forall k :: 0 <= k < 9 ==> Either(v, w)[k].Jmp? ==> k == 4 && Either(v, w)[k].off == 4
  {
    hide Const, ConstSkip;
    SkipJumps(v, 4);
    ConstJumps(w);
  }

  lemma FlagJumps(c: Cond, v: Word, w: Word)
    ensures forall k :: 0 <= k < 10 ==> OnFlag(c, v, w)[k].Jmp? ==> (k == 0 || k == 5) && k + OnFlag(c, v, w)[k].off <= 9
    ensures forall k :: 0 <= k < 10 ==> OnFlag(c, v, w)[k].Jmp? ==> OnFlag(c, v, w)[k].off >= 0
  {
    hide Either;
    EitherJumps(v, w);
  }

  /** The label called like the stray name is near enough for the jump that adds its address. */
  predicate Reachable(a: Option<Word>) { a.Some? && a.value <= 122 }

  /** The address of the label called like the stray name, in any letter case. */
  function StrayLabel(syms: Asm.Symbols): Option<Word> {
    var key := Asm.Fold(LeftoverName);
    if key in syms then Some(syms[key]) else None
  }

  /** The words an operation's text stands for: a comparison's first jump goes too far by the stray label's address. */
  ghost function OpCode(op: Op, pos: nat, tab: Table, a: Option<Word>): (code: seq<Instr>)
    requires Lowerable(op, pos, tab)
    ensures |code| == |Expand(op, pos, tab)|
  {
    var block := Expand(op, pos, tab);
    if op.BoolFromFlags? && Reachable(a) then block[0 := Jmp(block[0].cond, a.value + 5)] else block
  }

  ghost function OpsCode(ops: seq<Op>, pos: nat, tab: Table, a: Option<Word>): seq<Instr>
    decreases |ops|
  {
    if ops == [] || !Lowerable(ops[0], pos, tab) then []
    else OpCode(ops[0], pos, tab, a) + OpsCode(ops[1..], pos + OpSize(ops[0]), tab, a)
  }

  lemma OpReads(op: Op, pos: nat, tab: Table, naming: Naming, syms: Asm.Symbols)
    requires Lowerable(op, pos, tab) && Generated(op) && pos + OpSize(op) <= 0xFFFF
    ensures var a := StrayLabel(syms);
            ReadBack(syms, pos, Texts(OpItems(op, pos, tab, naming)), OpCode(op, pos, tab, a), !op.BoolFromFlags? || Reachable(a))
    ensures Named(OpItems(op, pos, tab, naming)) == if op.Mark? then [op.l] else []
  {
    hide Text, ReadsTo, Refused, WordOf, Expand, Inside, StrayLabel;
    var block := Expand(op, pos, tab);
    var items := Printed(block, pos);
    ExpandSize(op, pos, tab);
    TemplateJumps(op, pos, tab);
    JumpsAreInside(block, pos);
    PrintedReads(syms, pos, block);
    TextsOfPrinted(block, pos);
    match op
    case Mark(l) => TextsOne(OpItems(op, pos, tab, naming)[0]);
    case BoolFromFlags(_) => LeftoverReads(op, pos, tab, naming, syms);
    case _ =>
  }

  lemma JumpsAreInside(block: seq<Instr>, pos: nat)
    requires JumpsInside(block) && pos + |block| <= 0xFFFF
    ensures forall k :: 0 <= k < |block| ==> Inside(block[k], pos + k)
  {
  }

  lemma {:induction false} LeftoverReads(op: Op, pos: nat, tab: Table, naming: Naming, syms: Asm.Symbols)
    requires op.BoolFromFlags? && Lowerable(op, pos, tab) && pos + 10 <= 0xFFFF
    requires ReadBack(syms, pos, Texts(Printed(Expand(op, pos, tab), pos)), Expand(op, pos, tab), true)
    ensures var a := StrayLabel(syms);
            ReadBack(syms, pos, Texts(OpItems(op, pos, tab, naming)), OpCode(op, pos, tab, a), Reachable(a))
    ensures Named(OpItems(op, pos, tab, naming)) == []
  {
    hide *;
    var items, code, a := OpItems(op, pos, tab, naming), Expand(op, pos, tab), StrayLabel(syms);
    LeftoverItems(op, pos, tab, naming);
    LeftoverHead(op, pos, tab, naming);
    ReadBackSize(syms, pos, Texts(Printed(code, pos)), code, true);
    FlagHead(op, pos, tab, a);
    if Reachable(a) {
      LeftoverJumps(items[0].text, code[0].cond, pos, syms);
      ReplacedHead(syms, pos, Texts(Printed(code, pos)), code, items[0].text, Jmp(code[0].cond, a.value + 5));
    } else {
      LeftoverRefused(items[0].text, code[0].cond, pos, syms);
      RefusedHead(syms, pos, Texts(Printed(code, pos)), code, items[0].text);
    }
  }

  lemma FlagHead(op: Op, pos: nat, tab: Table, a: Option<Word>)
    requires op.BoolFromFlags? && Lowerable(op, pos, tab)
    ensures var code := Expand(op, pos, tab);
            && code != [] && code[0].Jmp? && code[0].off == 5
            && (if Reachable(a) then a.Some? && a.value + 5 <= 127
                                     && OpCode(op, pos, tab, a) == code[0 := Jmp(code[0].cond, a.value + 5)]
                else OpCode(op, pos, tab, a) == code)
  {
    hide Either;
  }

  /** Another word in front reads back too. */
  lemma ReplacedHead(syms: Asm.Symbols, pos: nat, ts: seq<Asm.Stmt>, code: seq<Instr>, t: Asm.Stmt, i: Instr)
    requires ts != [] && ReadBack(syms, pos, ts, code, true) && ReadsTo(syms, pos, t, WordOf(i))
    ensures ReadBack(syms, pos, [t] + ts[1..], code[0 := i], true)
  {
    hide ReadsTo, Refused, WordOf;
    var all := [t] + ts[1..];
    assert all[0] == t && pos + 0 == pos;
    assert forall j :: 0 < j < |all| ==> all[j] == ts[j];
  }

  /** Only the first line differs from the plain print. */
  lemma {:induction false} LeftoverItems(op: Op, pos: nat, tab: Table, naming: Naming)
    requires op.BoolFromFlags? && Lowerable(op, pos, tab)
    ensures var items, plain := OpItems(op, pos, tab, naming), Printed(Expand(op, pos, tab), pos);
            && items != [] && items[0].Word? && Texts(plain) != []
            && Texts(items) == [items[0].text] + Texts(plain)[1..] && Named(items) == []
  {
    hide Text, Expand, JmpText, Dis.Number, Named, Texts;
    var block := Expand(op, pos, tab);
    ExpandSize(op, pos, tab);
    var items, head := Printed(block, pos), OpItems(op, pos, tab, naming)[0];
    TextsOfPrinted(block, pos);
    assert items == [items[0]] + items[1..];
    TextsAppend([items[0]], items[1..]);
    TextsAppend([head], items[1..]);
    TextsOne(items[0]);
    TextsOne(head);
  }

  /** With a refused first line the text reads back only in part. */
  lemma RefusedHead(syms: Asm.Symbols, pos: nat, ts: seq<Asm.Stmt>, code: seq<Instr>, t: Asm.Stmt)
    requires ts != [] && ReadBack(syms, pos, ts, code, true) && Refused(syms, pos, t)
    ensures ReadBack(syms, pos, [t] + ts[1..], code, false)
  {
    hide ReadsTo, Refused, WordOf;
    var all := [t] + ts[1..];
    NotBoth(syms, pos, t, WordOf(code[0]));
    assert all[0] == t && pos + 0 == pos && !ReadsTo(syms, pos + 0, all[0], WordOf(code[0]));
    assert forall j :: 0 < j < |all| ==> all[j] == ts[j];
  }

  lemma NotBoth(syms: Asm.Symbols, pos: nat, t: Asm.Stmt, w: Word)
    requires Refused(syms, pos, t)
    ensures !ReadsTo(syms, pos, t, w)
  {
  }

  predicate IsLeftover(t: Asm.Stmt, c: Cond, pos: nat) {
    t == JmpText(c, [Asm.Signed(false, Asm.Sym(LeftoverName))] + Dis.Number((pos + 6) % 0x10000).expr)
  }

  lemma LeftoverHead(op: Op, pos: nat, tab: Table, naming: Naming)
    requires op.BoolFromFlags? && Lowerable(op, pos, tab)
    ensures var items, code := OpItems(op, pos, tab, naming), Expand(op, pos, tab);
            items != [] && items[0].Word? && code != [] && code[0].Jmp? && IsLeftover(items[0].text, code[0].cond, pos)
  {
    hide Text, Dis.Number, Either, JmpText;
    ExpandSize(op, pos, tab);
  }

  /** The stray name's value and the target are added up. */
  lemma LeftoverValue(pos: nat, syms: Asm.Symbols)
    requires pos + 10 <= 0xFFFF
    ensures var a, e := StrayLabel(syms), [Asm.Signed(false, Asm.Sym(LeftoverName))] + Dis.Number((pos + 6) % 0x10000).expr;
            Asm.Eval(syms, e) == if a.Some? then Some(a.value + pos + 6) else None
  {
    hide Dis.Number;
    Dis.NumberValue(syms, pos + 6);
    var name, rest := Asm.Signed(false, Asm.Sym(LeftoverName)), Dis.Number((pos + 6) % 0x10000).expr;
    assert ([name] + rest)[0] == name && ([name] + rest)[1..] == rest;
  }

  lemma LeftoverJumps(t: Asm.Stmt, c: Cond, pos: nat, syms: Asm.Symbols)
    requires IsLeftover(t, c, pos) && pos + 10 <= 0xFFFF && Reachable(StrayLabel(syms))
    ensures StrayLabel(syms).value + 5 <= 127 && ReadsTo(syms, pos, t, WordOf(Jmp(c, StrayLabel(syms).value + 5)))
  {
    hide Asm.Eval, Asm.JmpWord, Dis.Number, StrayLabel;
    LeftoverValue(pos, syms);
  }

  lemma LeftoverRefused(t: Asm.Stmt, c: Cond, pos: nat, syms: Asm.Symbols)
    requires IsLeftover(t, c, pos) && pos + 10 <= 0xFFFF && !Reachable(StrayLabel(syms))
    ensures Refused(syms, pos, t)
  {
    hide Asm.Eval, Asm.JmpWord, Dis.Number, StrayLabel;
    LeftoverValue(pos, syms);
  }

  ghost predicate HasLeftover(ops: seq<Op>) { exists op :: op in ops && op.BoolFromFlags? }

  /** The text of an emitted program reads back as its code but for the comparisons' first jumps, and the
      labels it defines are the marks. */
  lemma {:induction false} OpsRead(ops: seq<Op>, pos: nat, tab: Table, naming: Naming, syms: Asm.Symbols)
    requires EmitOps(ops, pos, tab, naming).Some? && (forall op :: op in ops ==> Generated(op))
    requires pos + Size(ops) <= 0xFFFF
    ensures var items, a := EmitOps(ops, pos, tab, naming).value, StrayLabel(syms);
            && ReadBack(syms, pos, Texts(items), OpsCode(ops, pos, tab, a), !HasLeftover(ops) || Reachable(a))
            && Named(items) == Marks(ops)
    decreases |ops|
  {
    hide OpItems, ReadBack, Generated, Lowerable, Expand, HasLeftover, OpSize, EmitOps, Size, Texts, Named, OpCode, OpsCode,
      Marks, Reachable, StrayLabel;
    var a := StrayLabel(syms);
    if ops == [] {
      NoLeftover(pos, tab, naming, a);
      TextsNone();
      ReadBackNone(syms, pos);
    } else {
      var op, rest := ops[0], ops[1..];
      EmitCons(ops, pos, tab, naming);
      OpsCodeCons(ops, pos, tab, a);
      var items := OpItems(op, pos, tab, naming);
      var others := EmitOps(rest, pos + OpSize(op), tab, naming).value;
      assert op in ops;
      OpReads(op, pos, tab, naming, syms);
      OpsRead(rest, pos + OpSize(op), tab, naming, syms);
      ExpandSize(op, pos, tab);
      ReadBackSize(syms, pos, Texts(items), OpCode(op, pos, tab, a), !op.BoolFromFlags? || Reachable(a));
      TextsAppend(items, others);
      ReadBackAppend(syms, pos, Texts(items), OpCode(op, pos, tab, a), !op.BoolFromFlags? || Reachable(a),
                     Texts(others), OpsCode(rest, pos + OpSize(op), tab, a), !HasLeftover(rest) || Reachable(a));
      LeftoverCons(op, rest);
      MarksCons(op, rest);
      assert ops == [op] + rest;
    }
  }

  lemma OpsCodeCons(ops: seq<Op>, pos: nat, tab: Table, a: Option<Word>)
    requires ops != [] && Lowerable(ops[0], pos, tab)
    ensures OpsCode(ops, pos, tab, a) == OpCode(ops[0], pos, tab, a) + OpsCode(ops[1..], pos + OpSize(ops[0]), tab, a)
  {
    hide OpCode, Lowerable;
  }

  /** These are the words of the code exactly if no comparison is spoiled. */
  lemma {:induction false} SpoiledCode(ops: seq<Op>, pos: nat, tab: Table, naming: Naming, a: Option<Word>)
    requires EmitOps(ops, pos, tab, naming).Some?
    ensures var code := CodeOf(EmitOps(ops, pos, tab, naming).value);
            && |OpsCode(ops, pos, tab, a)| == |code|
            && (WordsOf(OpsCode(ops, pos, tab, a)) == WordsOf(code) <==>
                  !HasLeftover(ops) || !Reachable(a) || a == Some(0))
            && (!HasLeftover(ops) || !Reachable(a) ==> OpsCode(ops, pos, tab, a) == code)
    decreases |ops|
  {
    hide OpItems, Lowerable, Expand, HasLeftover, OpSize, EmitOps, Size, OpCode, OpsCode, CodeOf, Marks, WordsOf, Reachable;
    if ops == [] {
      NoLeftover(pos, tab, naming, a);
    } else {
      var op, rest := ops[0], ops[1..];
      EmitCons(ops, pos, tab, naming);
      OpsCodeCons(ops, pos, tab, a);
      var items := OpItems(op, pos, tab, naming);
      var others := EmitOps(rest, pos + OpSize(op), tab, naming).value;
      SpoiledCode(rest, pos + OpSize(op), tab, naming, a);
      CodeOfOp(op, pos, tab, naming);
      CodeAppend(items, others);
      SpoiledOp(op, pos, tab, a);
      LeftoverCons(op, rest);
      assert ops == [op] + rest;
      WordsAppend(OpCode(op, pos, tab, a), OpsCode(rest, pos + OpSize(op), tab, a));
      WordsAppend(Expand(op, pos, tab), CodeOf(others));
      SameParts(WordsOf(OpCode(op, pos, tab, a)), WordsOf(OpsCode(rest, pos + OpSize(op), tab, a)),
                WordsOf(Expand(op, pos, tab)), WordsOf(CodeOf(others)));
    }
  }

  lemma SameParts(a: seq<Word>, b: seq<Word>, c: seq<Word>, d: seq<Word>)
    requires |a| == |c|
    ensures a + b == c + d <==> a == c && b == d
  {
    assert (a + b)[..|a|] == a && (a + b)[|a|..] == b;
    assert (c + d)[..|a|] == c && (c + d)[|a|..] == d;
  }

  lemma WordsAppend(a: seq<Instr>, b: seq<Instr>)
    ensures WordsOf(a + b) == WordsOf(a) + WordsOf(b)
    ensures |WordsOf(a)| == |a| && |WordsOf(b)| == |b|
  {
    hide WordOf;
  }

  lemma SpoiledOp(op: Op, pos: nat, tab: Table, a: Option<Word>)
    requires Lowerable(op, pos, tab)
    ensures WordsOf(OpCode(op, pos, tab, a)) == WordsOf(Expand(op, pos, tab)) <==>
            !op.BoolFromFlags? || !Reachable(a) || a == Some(0)
    ensures !op.BoolFromFlags? || !Reachable(a) ==> OpCode(op, pos, tab, a) == Expand(op, pos, tab)
  {
    hide WordOf, Expand, Reachable;
    if op.BoolFromFlags? {
      FlagHead(op, pos, tab, a);
      if Reachable(a) {
        var code := Expand(op, pos, tab);
        JumpWords(code[0].cond, a.value + 5);
        assert WordsOf(OpCode(op, pos, tab, a))[0] == WordOf(Jmp(code[0].cond, a.value + 5));
        assert WordsOf(code)[0] == WordOf(code[0]);
      }
    }
  }

  lemma JumpWords(c: Cond, off: Offset)
    requires off >= 0
    ensures WordOf(Jmp(c, off)) == WordOf(Jmp(c, 5)) <==> off == 5
  {
    assert off % 256 == off;
    assert off == off / 64 * 64 + off % 64;
  }

  lemma EmitCons(ops: seq<Op>, pos: nat, tab: Table, naming: Naming)
    requires ops != [] && EmitOps(ops, pos, tab, naming).Some?
    ensures var next := EmitOps(ops[1..], pos + OpSize(ops[0]), tab, naming);
            && Lowerable(ops[0], pos, tab) && next.Some?
            && EmitOps(ops, pos, tab, naming).value == OpItems(ops[0], pos, tab, naming) + next.value
    ensures Size(ops) == OpSize(ops[0]) + Size(ops[1..])
  {
    hide OpItems, Lowerable, OpSize;
  }

  lemma {:induction false} NoLeftover(pos: nat, tab: Table, naming: Naming, a: Option<Word>)
    ensures OpsCode([], pos, tab, a) == []
    ensures !HasLeftover([]) && EmitOps([], pos, tab, naming) == Some([]) && CodeOf([]) == [] && Marks([]) == []
  {
  }

  lemma ReadBackNone(syms: Asm.Symbols, pos: nat)
    ensures ReadBack(syms, pos, [], [], true)
  {
  }

  lemma ReadBackSize(syms: Asm.Symbols, pos: nat, ts: seq<Asm.Stmt>, code: seq<Instr>, good: bool)
    requires ReadBack(syms, pos, ts, code, good)
    ensures |ts| == |code|
  {
  }

  lemma LeftoverCons(op: Op, ops: seq<Op>)
    ensures HasLeftover([op] + ops) <==> op.BoolFromFlags? || HasLeftover(ops)
  {
    if op.BoolFromFlags? {
      assert op in [op] + ops;
    }
    if HasLeftover(ops) {
      var o :| o in ops && o.BoolFromFlags?;
      assert o in [op] + ops;
    }
  }

  // ----- the assembler's first pass over the printed text -----

  /** A label's name as the assembler compares it. */
  function Key(l: Bs9Ops.Label, naming: Naming): string { Asm.Fold(naming(l)) }

  /** Label names the assembler can tell apart: they differ in more than letter case. */
  ghost predicate NamesApart(ls: seq<Bs9Ops.Label>, naming: Naming) {
    |ls| <= Asm.MaxLabels && forall i, j :: 0 <= i < j < |ls| ==> Key(ls[i], naming) != Key(ls[j], naming)
  }

  function Symbols(items: seq<Item>, naming: Naming): Asm.Symbols {
    if items == [] then map[]
    else
      var init, last := items[..|items| - 1], items[|items| - 1];
      if last.Label? then Symbols(init, naming)[Key(last.l, naming) := |Texts(init)| % 0x10000]
      else Symbols(init, naming)
  }

  /** The table has one entry for each name, and no others. */
  ghost predicate Covers(syms: Asm.Symbols, ls: seq<Bs9Ops.Label>, naming: Naming) {
    && |syms| == |ls|
    && (forall i | 0 <= i < |ls| :: Key(ls[i], naming) in syms)
    && (forall name | name in syms :: exists i | 0 <= i < |ls| :: Key(ls[i], naming) == name)
  }

  lemma CoverMore(syms: Asm.Symbols, ls: seq<Bs9Ops.Label>, l: Bs9Ops.Label, a: Word, naming: Naming)
    requires Covers(syms, ls, naming) && NamesApart(ls + [l], naming)
    ensures Key(l, naming) !in syms && |syms| < Asm.MaxLabels && Covers(syms[Key(l, naming) := a], ls + [l], naming)
  {
    var all, more := ls + [l], syms[Key(l, naming) := a];
    assert all[|ls|] == l && forall i :: 0 <= i < |ls| ==> all[i] == ls[i];
    forall i | 0 <= i < |ls|
      ensures Key(ls[i], naming) != Key(l, naming)
    {
      assert Key(all[i], naming) != Key(all[|ls|], naming);
    }
    forall name | name in more
      ensures exists i | 0 <= i < |all| :: Key(all[i], naming) == name
    {
      if name in syms {
        var i :| 0 <= i < |ls| && Key(ls[i], naming) == name;
        assert Key(all[i], naming) == name;
      } else {
        assert Key(all[|ls|], naming) == name;
      }
    }
  }

  lemma {:induction false} SymbolNames(items: seq<Item>, naming: Naming)
    requires NamesApart(Named(items), naming)
    ensures Covers(Symbols(items, naming), Named(items), naming)
    decreases |items|
  {
    hide Covers, NamesApart, Named;
    if items == [] {
      CoverNone(naming);
    } else {
      var init, last := items[..|items| - 1], items[|items| - 1];
      assert items == init + [last];
      TextsAppend(init, [last]);
      TextsOne(last);
      PrefixApart(Named(init), Named([last]), naming);
      SymbolNames(init, naming);
      if last.Label? {
        CoverMore(Symbols(init, naming), Named(init), last.l, |Texts(init)| % 0x10000, naming);
      } else {
        assert Named(init) + [] == Named(init);
      }
    }
  }

  lemma CoverNone(naming: Naming)
    ensures Covers(map[], Named([]), naming)
  {
  }

  function PlacedTexts(ts: seq<Asm.Stmt>): seq<Asm.Placed>
    requires |ts| <= 0x10000
  {
    seq(|ts|, j requires 0 <= j < |ts| => Asm.Placed(ts[j], j, 1))
  }

  predicate AllCode(ts: seq<Asm.Stmt>) { forall j :: 0 <= j < |ts| ==> ts[j].Code? }

  lemma {:induction false} FirstOfItems(items: seq<Item>, naming: Naming)
    requires NamesApart(Named(items), naming) && |Texts(items)| <= 0xFFFF && AllCode(Texts(items))
    ensures Asm.First(LinesOf(items, naming)) ==
            Asm.Pass1(Symbols(items, naming), PlacedTexts(Texts(items)), |Texts(items)|, 0)
    decreases |items|
  {
    hide NamesApart, AllCode, Texts, Named, LineOf, Asm.Line1, Symbols, PlacedTexts;
    NoItems(naming);
    if items != [] {
      var init, last := items[..|items| - 1], items[|items| - 1];
      assert items == init + [last];
      TextsAppend(init, [last]);
      TextsOne(last);
      PrefixApart(Named(init), Named([last]), naming);
      PrefixCode(Texts(init), Texts([last]));
      FirstOfItems(init, naming);
      assert LinesOf(items, naming)[..|items| - 1] == LinesOf(init, naming);
      ItemLine(init, last, naming);
    }
  }

  lemma NoItems(naming: Naming)
    ensures Texts([]) == [] && Symbols([], naming) == map[] && PlacedTexts([]) == []
  {
  }

  lemma PrefixApart(a: seq<Bs9Ops.Label>, b: seq<Bs9Ops.Label>, naming: Naming)
    requires NamesApart(a + b, naming)
    ensures NamesApart(a, naming)
  {
    assert forall i :: 0 <= i < |a| ==> (a + b)[i] == a[i];
  }

  lemma PrefixCode(a: seq<Asm.Stmt>, b: seq<Asm.Stmt>)
    requires AllCode(a + b)
    ensures AllCode(a)
  {
    assert forall i :: 0 <= i < |a| ==> (a + b)[i] == a[i];
  }

  lemma {:induction false} TextPerWord(items: seq<Item>)
    ensures |Texts(items)| == |CodeOf(items)|
  {
    if items != [] {
      TextPerWord(items[1..]);
    }
  }

  /** The table has a label's name with the number of words in front of it. */
  lemma {:induction false} SymbolAt(items: seq<Item>, k: nat, naming: Naming)
    requires k < |items| && items[k].Label? && NamesApart(Named(items), naming)
    ensures var key, syms := Key(items[k].l, naming), Symbols(items, naming);
            key in syms && syms[key] == |Texts(items[..k])| % 0x10000
    decreases |items|
  {
    hide NamesApart, Named, Texts, Covers, Key;
    var init, last := items[..|items| - 1], items[|items| - 1];
    assert items == init + [last];
    if k < |init| {
      TextsAppend(init, [last]);
      TextsOne(last);
      PrefixApart(Named(init), Named([last]), naming);
      SymbolAt(init, k, naming);
      assert items[..k] == init[..k];
      SymbolNames(init, naming);
      if last.Label? {
        CoverMore(Symbols(init, naming), Named(init), last.l, 0, naming);
      }
    }
  }

  /** The address the assembler gives a label is the one the compiler gave it. */
  lemma {:induction false} SymbolsAgree(ops: seq<Op>, k: nat, naming: Naming)
    requires k < |ops| && ops[k].Mark? && NamesApart(Marks(ops), naming)
    requires EmitOps(ops, 0, Record(imap[], ops, 0, naming), naming).Some?
    requires forall op :: op in ops ==> Generated(op)
    requires Size(ops) <= 0xFFFF
    ensures var tab, l := Record(imap[], ops, 0, naming), ops[k].l;
            var syms := Symbols(EmitOps(ops, 0, tab, naming).value, naming);
            && l in tab && tab[l] == Size(ops[..k]) % 0x10000
            && Key(l, naming) in syms && syms[Key(l, naming)] == tab[l]
  {
    hide NamesApart, Named, Texts, Covers, Key, Marks, EmitOps, Record, Size, CodeOf, Texted, Generated, Symbols;
    var tab, l := Record(imap[], ops, 0, naming), ops[k].l;
    var items := EmitOps(ops, 0, tab, naming).value;
    FirstOfText(ops, k, naming);
    RecordedIsEmitted(ops, k, naming);
    PassesAgree(ops, k, 0, tab, naming);
    var before := EmitOps(ops[..k], 0, tab, naming).value;
    TextPerWord(before);
    EmittedMark(ops, k, tab, naming);
    OpsRead(ops, 0, tab, naming, map[]);
    SymbolAt(items, |before|, naming);
    assert items[..|before|] == before;
  }

  lemma {:induction false} EmittedMark(ops: seq<Op>, k: nat, tab: Table, naming: Naming)
    requires k < |ops| && ops[k].Mark? && EmitOps(ops, 0, tab, naming).Some?
    ensures var before, items := EmitOps(ops[..k], 0, tab, naming), EmitOps(ops, 0, tab, naming).value;
            before.Some? && |before.value| < |items| && items[|before.value|] == Label(ops[k].l)
  {
    hide EmitOps, Size, OpItems;
    assert ops == ops[..k] + ops[k..] && ops[k..][1..] == ops[k + 1..];
    EmitAppend(ops[..k], ops[k..], 0, tab, naming);
    EmitCons(ops[k..], Size(ops[..k]), tab, naming);
    MarkItem(ops[k], Size(ops[..k]), tab, naming);
  }

  lemma MarkItem(op: Op, pos: nat, tab: Table, naming: Naming)
    requires op.Mark? && Lowerable(op, pos, tab)
    ensures OpItems(op, pos, tab, naming) == [Label(op.l)]
  {
  }

  /** With names apart a mark is the first of its text. */
  lemma {:induction false} FirstOfText(ops: seq<Op>, k: nat, naming: Naming)
    requires k < |ops| && ops[k].Mark? && NamesApart(Marks(ops), naming)
    ensures !Texted(ops[k].l, Marks(ops[..k]), naming)
  {
    hide Marks;
    var before, l, rest := Marks(ops[..k]), ops[k].l, ops[k + 1..];
    assert ops == ops[..k] + ([ops[k]] + rest);
    MarksAppend(ops[..k], [ops[k]] + rest);
    MarksCons(ops[k], rest);
    var all := Marks(ops);
    assert all == before + ([l] + Marks(rest)) && all[|before|] == l;
    forall i | 0 <= i < |before|
      ensures naming(before[i]) != naming(l)
    {
      assert all[i] == before[i] && Key(all[i], naming) != Key(all[|before|], naming);
    }
  }

  function ItemsPass1(items: seq<Item>, naming: Naming): Asm.Pass1
    requires |Texts(items)| <= 0xFFFF
  {
    Asm.Pass1(Symbols(items, naming), PlacedTexts(Texts(items)), |Texts(items)|, 0)
  }

  /** One more line: a label is new, a statement takes the next address. */
  lemma {:induction false} ItemLine(init: seq<Item>, last: Item, naming: Naming)
    requires |Texts(init)| <= 0xFFFF && |Texts(init + [last])| <= 0xFFFF
    requires NamesApart(Named(init + [last]), naming) && AllCode(Texts(init + [last]))
    ensures Asm.Line1(ItemsPass1(init, naming), LineOf(last, naming)) == ItemsPass1(init + [last], naming)
  {
    hide Named, Texts, NamesApart, Covers, PlacedTexts;
    TextsAppend(init, [last]);
    TextsOne(last);
    assert (init + [last])[..|init + [last]| - 1] == init;
    var st := ItemsPass1(init, naming);
    match last
    case Label(l) =>
      Dis.LabelsOne(st, naming(l));
      PrefixApart(Named(init), [l], naming);
      SymbolNames(init, naming);
      CoverMore(Symbols(init, naming), Named(init), l, |Texts(init)| % 0x10000, naming);
      assert Texts(init) + [] == Texts(init);
    case Word(_, text) => PlaceText(st, Texts(init), text);
  }

  lemma PlaceText(st: Asm.Pass1, ts: seq<Asm.Stmt>, t: Asm.Stmt)
    requires |ts| < 0xFFFF && AllCode(ts + [t]) && st.lines == PlacedTexts(ts) && st.pc == |ts| && st.errors == 0
    ensures Asm.Place(st, t) == Asm.Pass1(st.tab, PlacedTexts(ts + [t]), |ts + [t]|, 0)
  {
    assert (ts + [t])[|ts|] == t;
    assert PlacedTexts(ts + [t]) == PlacedTexts(ts) + [Asm.Placed(t, |ts|, 1)];
  }

  // ----- assembling an emitted program -----

  function WordsOf(code: seq<Instr>): seq<Word> {
    seq(|code|, j requires 0 <= j < |code| => WordOf(code[j]))
  }

  function Back(syms: Asm.Symbols, addr: nat, t: Asm.Stmt, w: Word): Option<Word> {
    if ReadsTo(syms, addr, t, w) then Some(w) else None
  }

  /** The printed text of an operation list with label names of its own assembles, to the words of its code but for spoiled
      jumps, exactly when no comparison leaves its stray name in the text or that name is a label near enough. */
  lemma {:induction false} AssembleItems(ops: seq<Op>, tab: Table, naming: Naming)
    requires EmitOps(ops, 0, tab, naming).Some? && (forall op :: op in ops ==> Generated(op)) && Size(ops) <= 0xFFFF
    requires NamesApart(Marks(ops), naming)
    ensures var items := EmitOps(ops, 0, tab, naming).value;
            var a := StrayLabel(Symbols(items, naming));
            Asm.Assemble(LinesOf(items, naming)) ==
              if HasLeftover(ops) && !Reachable(a) then None else Some(WordsOf(OpsCode(ops, 0, tab, a)))
  {
    hide EmitOps, ReadBack, Generated, Size, HasLeftover, Asm.Assemble, Symbols, CodeOf, OpsCode, Texts, Agree.WordPerLine,
      Marks, StrayLabel, Reachable;
    var items := EmitOps(ops, 0, tab, naming).value;
    OpsRead(ops, 0, tab, naming, map[]);
    var syms, ts := Symbols(items, naming), Texts(items);
    var code, good := OpsCode(ops, 0, tab, StrayLabel(syms)), !HasLeftover(ops) || Reachable(StrayLabel(syms));
    SymbolNames(items, naming);
    OpsRead(ops, 0, tab, naming, syms);
    ReadBackSize(syms, 0, ts, code, good);
    SpoiledCode(ops, 0, tab, naming, StrayLabel(syms));
    PassesAgree(ops, 0, 0, tab, naming);
    ReadBackCode(syms, ts, code, good);
    FirstOfItems(items, naming);
    var ws := seq(|ts|, j requires 0 <= j < |ts| => Back(syms, j, ts[j], WordOf(code[j])));
    LinesAreWords(syms, ts, code, good, ws);
    Agree.AssembleWords(LinesOf(items, naming), ws);
    if good {
      assert Asm.Assemble(LinesOf(items, naming)).value == WordsOf(code);
    }
  }

  lemma ReadBackCode(syms: Asm.Symbols, ts: seq<Asm.Stmt>, code: seq<Instr>, good: bool)
    requires ReadBack(syms, 0, ts, code, good)
    ensures AllCode(ts)
  {
    hide WordOf;
    forall j | 0 <= j < |ts|
      ensures ts[j].Code?
    {
      assert ReadsTo(syms, 0 + j, ts[j], WordOf(code[j])) || Refused(syms, 0 + j, ts[j]);
    }
  }

  lemma LinesAreWords(syms: Asm.Symbols, ts: seq<Asm.Stmt>, code: seq<Instr>, good: bool, ws: seq<Option<Word>>)
    requires ReadBack(syms, 0, ts, code, good) && |ts| <= 0xFFFF && |ws| == |ts|
    requires forall j :: 0 <= j < |ts| ==> ws[j] == Back(syms, j, ts[j], WordOf(code[j]))
    ensures Agree.WordPerLine(syms, PlacedTexts(ts), ws) && (Agree.AllSome(ws) <==> good)
  {
    hide WordOf, ReadsTo, Refused;
    var lines := PlacedTexts(ts);
    forall j | 0 <= j < |ts|
      ensures Agree.ReadsAs(syms, lines[j], j, ws[j])
    {
      assert ReadsTo(syms, 0 + j, ts[j], WordOf(code[j])) || Refused(syms, 0 + j, ts[j]);
      LineIsWord(syms, ts[j], j, WordOf(code[j]));
    }
    if good {
      forall j | 0 <= j < |ts|
        ensures ws[j].Some?
      {
        assert ReadsTo(syms, 0 + j, ts[j], WordOf(code[j]));
      }
    } else {
      var j :| 0 <= j < |ts| && !ReadsTo(syms, 0 + j, ts[j], WordOf(code[j]));
      assert ws[j].None?;
    }
  }

  lemma LineIsWord(syms: Asm.Symbols, t: Asm.Stmt, addr: Word, w: Word)
    requires ReadsTo(syms, addr, t, w) || Refused(syms, addr, t)
    ensures Agree.ReadsAs(syms, Asm.Placed(t, addr, 1), addr, Back(syms, addr, t, w))
  {
    hide Agree.Contents, Dis.Reread;
    Dis.RereadContents(syms, Asm.Placed(t, addr, 1));
  }

  // ----- compiled programs -----

  predicate LeavesName(op: BinOp) { op.EqOp? || op.NeOp? || op.LtOp? || op.GeOp? }

  /** The expression compares with ==, !=, < or >=. */
  predicate ComparesExpr<V>(e: Expr<V>) {
    match e
    case Num(_) => false
    case Var(_) => false
    case Load(a) => ComparesExpr(a)
    case Store(a, v) => ComparesExpr(a) || ComparesExpr(v)
    case CallFn(_, args) => ComparesArgs(args)
    case Pos(e1) => ComparesExpr(e1)
    case Paren(e1) => ComparesExpr(e1)
    case Neg(e1) => ComparesExpr(e1)
    case Compl(e1) => ComparesExpr(e1)
    case Not(e1) => ComparesExpr(e1)
    case Bin(op, l, r) => LeavesName(op) || ComparesExpr(l) || ComparesExpr(r)
    case Assign(_, e1) => ComparesExpr(e1)
  }

  predicate ComparesArgs<V>(args: Exprs<V>) {
    match args
    case NoArgs => false
    case Arg(e, rest) => ComparesExpr(e) || ComparesArgs(rest)
  }

  predicate ComparesStmt<V>(s: Stmt<V>) {
    match s
    case Return(e) => ComparesExpr(e)
    case If(e, thn) => ComparesExpr(e) || ComparesStmt(thn)
    case IfElse(e, thn, els) => ComparesExpr(e) || ComparesStmt(thn) || ComparesStmt(els)
    case While(e, body) => ComparesExpr(e) || ComparesStmt(body)
    case Block(ss) => ComparesStmts(ss)
    case Do(e) => ComparesExpr(e)
    case DeclInit(_, e) => ComparesExpr(e)
    case _ => false
  }

  predicate ComparesStmts<V>(ss: Stmts<V>) {
    match ss
    case Nil => false
    case Cons(s, rest) => ComparesStmt(s) || ComparesStmts(rest)
  }

  predicate Compares(funcs: seq<Function>) {
    exists f :: f in funcs && ComparesStmts(f.body)
  }

  /** Operations of the compiler, with a leftover name if and only if marked so. */
  ghost predicate Made(ops: seq<Op>, left: bool) {
    (forall op :: op in ops ==> Generated(op)) && (HasLeftover(ops) <==> left)
  }

  lemma MadeAppend(a: seq<Op>, l: bool, b: seq<Op>, r: bool)
    requires Made(a, l) && Made(b, r)
    ensures Made(a + b, l || r)
  {
    hide Generated;
    forall op | op in a + b
      ensures Generated(op)
    {
    }
    if l {
      var op :| op in a && op.BoolFromFlags?;
      assert op in a + b;
    }
    if r {
      var op :| op in b && op.BoolFromFlags?;
      assert op in a + b;
    }
  }

  lemma MadeOne(op: Op)
    requires Generated(op)
    ensures Made([op], op.BoolFromFlags?)
  {
    assert op in [op];
  }

  lemma {:induction false} MadePlain(block: seq<Instr>)
    requires forall k :: 0 <= k < |block| ==> !block[k].Jmp?
    ensures Made(Plain(block), false)
  {
    hide Plain;
    forall op | op in Plain(block) ensures Generated(op) && !op.BoolFromFlags? {
      var k :| 0 <= k < |block| && Plain(block)[k] == op;
    }
  }

  lemma MadeBin(op: BinOp)
    ensures Made(BinCode(op), LeavesName(op))
  {
    if IsComparison(op) {
      MadeOne(Ins(SubRR(0, 2)));
      MadeOne(FlagOf(op));
      MadeAppend([Ins(SubRR(0, 2))], false, [FlagOf(op)], LeavesName(op));
    } else {
      MadeOne(BinCode(op)[0]);
    }
  }

  lemma MadeUnary(op: UnaryOp)
    ensures Made(UnaryCode(op), false)
  {
    match op
    case LoadOp => MadePlain([CpyRR(8, 0), CpyRM(0, 8)]);
    case NegOp => MadePlain(ThroughR2(0, SubRR(0, 2)));
    case ComplOp => MadePlain(ThroughR2(0xFFFF, XorR0(2)));
    case NotOp => MadeOne(BoolNot);
  }

  lemma {:induction false} NoJumpInPops(n: nat)
    requires n <= MaxArgs
    ensures forall k :: 0 <= k < |Pops(n)| ==> !Pops(n)[k].Jmp?
  {
    if n > 0 {
      NoJumpInPops(n - 1);
    }
  }

  lemma MadeTail(a: seq<Op>, l: bool, op: UnaryOp)
    requires Made(a, l)
    ensures Made(a + UnaryCode(op), l)
  {
    MadeUnary(op);
    MadeAppend(a, l, UnaryCode(op), false);
  }

  lemma MadePair(a: seq<Op>, l: bool, b: seq<Op>, r: bool)
    requires Made(a, l) && Made(b, r)
    ensures Made(a + Plain(Push) + b, l || r)
  {
    MadePlain(Push);
    MadeAppend(a, l, Plain(Push), false);
    MadeAppend(a + Plain(Push), l, b, r);
  }

  lemma MadeWrite(x: Place)
    ensures Made(Plain(WriteVar(x)), false) && Made(Plain(ReadVar(x)), false)
  {
    MadePlain(WriteVar(x));
    MadePlain(ReadVar(x));
  }

  lemma MadeStack()
    ensures Made(Plain(StoreThroughStack), false) && Made(Plain(PopLeft), false)
  {
    MadePlain(StoreThroughStack);
    MadePlain(PopLeft);
  }

  lemma {:induction false} MadeExpr(e: Expr<Place>)
    ensures Made(CompExpr(e), ComparesExpr(e))
    decreases e
  {
    hide Made, Push, PopLeft, StoreThroughStack, ReadVar, WriteVar, Const, BinCode, UnaryCode, Pops, Plain;
    match e
    case Num(v) => assert Made(Plain(Const(v)), false) by { MadeConst(v); }
    case Var(x) => MadeWrite(x);
    case Load(a) => MadeExpr(a); MadeTail(CompExpr(a), ComparesExpr(a), LoadOp);
    case Store(a, v) =>
      MadeExpr(a); MadeExpr(v); MadeStack();
      MadePair(CompExpr(a), ComparesExpr(a), CompExpr(v), ComparesExpr(v));
      MadeAppend(CompExpr(a) + Plain(Push) + CompExpr(v), ComparesExpr(e), Plain(StoreThroughStack), false);
    case CallFn(f, args) =>
      MadeArgs(args);
      var n := Capped(Count(args));
      NoJumpInPops(n);
      MadePlain(Pops(n));
      MadeAppend(CompArgs(args), ComparesArgs(args), Plain(Pops(n)), false);
      MadeOne(Call(Func(f)));
      MadeAppend(CompArgs(args) + Plain(Pops(n)), ComparesArgs(args), [Call(Func(f))], false);
    case Pos(e1) => MadeExpr(e1);
    case Paren(e1) => MadeExpr(e1);
    case Neg(e1) => MadeExpr(e1); MadeTail(CompExpr(e1), ComparesExpr(e1), NegOp);
    case Compl(e1) => MadeExpr(e1); MadeTail(CompExpr(e1), ComparesExpr(e1), ComplOp);
    case Not(e1) => MadeExpr(e1); MadeTail(CompExpr(e1), ComparesExpr(e1), NotOp);
    case Bin(op, l, r) =>
      MadeExpr(l); MadeExpr(r); MadeStack(); MadeBin(op);
      var pair, c := CompExpr(l) + Plain(Push) + CompExpr(r), ComparesExpr(l) || ComparesExpr(r);
      MadePair(CompExpr(l), ComparesExpr(l), CompExpr(r), ComparesExpr(r));
      MadeAppend(pair, c, Plain(PopLeft), false);
      MadeAppend(pair + Plain(PopLeft), c, BinCode(op), LeavesName(op));
    case Assign(x, e1) =>
      MadeExpr(e1); MadeWrite(x);
      MadeAppend(CompExpr(e1), ComparesExpr(e1), Plain(WriteVar(x)), false);
  }

  lemma MadeConst(v: Word)
    ensures Made(Plain(Const(v)), false)
  {
    MadePlain(Const(v));
  }

  lemma {:induction false} MadeArgs(args: Exprs<Place>)
    ensures Made(CompArgs(args), ComparesArgs(args))
    decreases args
  {
    hide Push, Plain, Generated;
    match args
    case NoArgs =>
    case Arg(e, rest) =>
      MadeExpr(e);
      MadeArgs(rest);
      MadePair(CompExpr(e), ComparesExpr(e), CompArgs(rest), ComparesArgs(rest));
  }

  /** An operation of no comparison, after and before others. */
  lemma MadeSnoc(a: seq<Op>, l: bool, op: Op)
    requires Made(a, l) && Generated(op) && !op.BoolFromFlags?
    ensures Made(a + [op], l) && Made([op] + a, l)
  {
    MadeOne(op);
    MadeAppend(a, l, [op], false);
    MadeAppend([op], false, a, l);
  }

  lemma {:induction false} MadeStmt(s: Stmt<Place>, fn: string, n: nat)
    ensures Made(CompStmt(s, fn, n), ComparesStmt(s))
    decreases s
  {
    hide Made, CompExpr, Plain, WriteVar;
    match s
    case Return(e) => MadeExpr(e); MadeSnoc(CompExpr(e), ComparesExpr(e), Jabs(End(fn)));
    case If(e, thn) =>
      MadeExpr(e); MadeStmt(thn, fn, n + 2);
      var head, a := CompExpr(e) + [JabsIfZero(Else(n))], CompStmt(thn, fn, n + 2);
      MadeSnoc(CompExpr(e), ComparesExpr(e), JabsIfZero(Else(n)));
      MadeAppend(head, ComparesExpr(e), a, ComparesStmt(thn));
      MadeSnoc(head + a, ComparesStmt(s), Mark(Else(n)));
    case IfElse(e, thn, els) =>
      var m := n + 2 + LabelCount(thn);
      MadeExpr(e); MadeStmt(thn, fn, n + 2); MadeStmt(els, fn, m);
      var head, a, b := CompExpr(e) + [JabsIfZero(Else(n))], CompStmt(thn, fn, n + 2), CompStmt(els, fn, m);
      var c := ComparesExpr(e) || ComparesStmt(thn);
      MadeSnoc(CompExpr(e), ComparesExpr(e), JabsIfZero(Else(n)));
      MadeAppend(head, ComparesExpr(e), a, ComparesStmt(thn));
      MadeSnoc(head + a, c, Jabs(IfEnd(n + 1)));
      MadeSnoc(head + a + [Jabs(IfEnd(n + 1))], c, Mark(Else(n)));
      MadeAppend(head + a + [Jabs(IfEnd(n + 1))] + [Mark(Else(n))], c, b, ComparesStmt(els));
      MadeSnoc(head + a + [Jabs(IfEnd(n + 1))] + [Mark(Else(n))] + b, ComparesStmt(s), Mark(IfEnd(n + 1)));
    case While(e, body) =>
      MadeExpr(e); MadeStmt(body, fn, n + 2);
      var head, a := CompExpr(e) + [JabsIfZero(Wend(n + 1))], CompStmt(body, fn, n + 2);
      MadeSnoc(CompExpr(e), ComparesExpr(e), JabsIfZero(Wend(n + 1)));
      MadeSnoc(head, ComparesExpr(e), Mark(Top(n)));
      MadeAppend([Mark(Top(n))] + head, ComparesExpr(e), a, ComparesStmt(body));
      MadeSnoc([Mark(Top(n))] + head + a, ComparesStmt(s), Jabs(Top(n)));
      MadeSnoc([Mark(Top(n))] + head + a + [Jabs(Top(n))], ComparesStmt(s), Mark(Wend(n + 1)));
    case Block(ss) => MadeStmts(ss, fn, n);
    case Do(e) => MadeExpr(e);
    case Empty => MadeOne(Nop);
    case Decl(_) => MadeNone();
    case DeclInit(x, e) =>
      MadeExpr(e); MadeWrite(x);
      MadeAppend(CompExpr(e), ComparesExpr(e), Plain(WriteVar(x)), false);
  }

  lemma MadeNone()
    ensures Made([], false)
  {
  }

  lemma {:induction false} MadeStmts(ss: Stmts<Place>, fn: string, n: nat)
    ensures Made(CompStmts(ss, fn, n), ComparesStmts(ss))
    decreases ss
  {
    hide Made, CompStmt;
    match ss
    case Nil => MadeNone();
    case Cons(s, rest) =>
      var m := n + LabelCount(s);
      MadeStmt(s, fn, n);
      MadeStmts(rest, fn, m);
      MadeAppend(CompStmt(s, fn, n), ComparesStmt(s), CompStmts(rest, fn, m), ComparesStmts(rest));
  }

  lemma {:induction false} NoJumpInSpills(i: nat, n: nat)
    requires i <= n <= MaxArgs
    ensures forall k :: 0 <= k < |Spills(i, n)| ==> !Spills(i, n)[k].Jmp?
    decreases n - i
  {
    hide Spill;
    if i < n {
      NoJumpInSpills(i + 1, n);
      NoJumpInSpill(i);
    }
  }

  lemma NoJumpInSpill(i: nat)
    requires i < MaxArgs
    ensures forall k :: 0 <= k < |Spill(i)| ==> !Spill(i)[k].Jmp?
  {
  }

  lemma NoJumpInPrologue(f: Function)
    requires f.params <= MaxArgs
    ensures forall k :: 0 <= k < |Prologue(f)| ==> !Prologue(f)[k].Jmp?
  {
    NoJumpInSpills(0, f.params);
    assert forall k :: 0 <= k < |Entry(f.locals)| ==> !Entry(f.locals)[k].Jmp?;
  }

  lemma MadeFunc(f: Function, n: nat)
    requires f.params <= MaxArgs
    ensures Made(FuncOps(f, n), ComparesStmts(f.body))
  {
    hide Made, CompStmts, Prologue, Plain;
    var body, c := CompStmts(f.body, f.name, n), ComparesStmts(f.body);
    NoJumpInPrologue(f);
    MadePlain(Prologue(f));
    MadeSnoc(Plain(Prologue(f)), false, Mark(Func(f.name)));
    MadeStmts(f.body, f.name, n);
    MadeSnoc(body, c, Mark(End(f.name)));
    MadeSnoc(body + [Mark(End(f.name))], c, Ret);
    assert body + [Mark(End(f.name)), Ret] == body + [Mark(End(f.name))] + [Ret];
    MadeAppend([Mark(Func(f.name))] + Plain(Prologue(f)), false, BodyOps(f, n), c);
  }

  lemma MadeStub(top: Word)
    ensures Made([Mark(Start)] + StartOps(top), false)
  {
    hide Made, Plain;
    var block := Const(top) + [CpyRR(SP, 0)];
    MadePlain(block);
    MadeSnoc(Plain(block), false, Call(Func("main")));
    MadeSnoc(Plain(block) + [Call(Func("main"))], false, Halt);
    assert StartOps(top) == Plain(block) + [Call(Func("main"))] + [Halt];
    MadeSnoc(StartOps(top), false, Mark(Start));
  }

  lemma {:induction false} MadeUnits(funcs: seq<Function>, k: nat)
    requires FewParams(funcs) && k <= |funcs|
    ensures |UnitsOf(funcs)| == |funcs| && forall u :: u in UnitsOf(funcs) ==> u.params <= MaxArgs
    ensures Made(AllUnitOps(UnitsOf(funcs)[..k]), Compares(funcs[..k]))
  {
    hide Made, UnitOps, FuncOps, UnitsOf, ComparesStmts;
    var us := UnitsOf(funcs);
    UnitsFew(funcs);
    if k == 0 {
      MadeNone();
    } else {
      MadeUnits(funcs, k - 1);
      var f, n := funcs[k - 1], Labels(funcs[..k - 1]);
      UnitIsFunc(funcs, k - 1);
      MadeFunc(f, n);
      assert us[..k][..k - 1] == us[..k - 1] && us[..k][k - 1] == us[k - 1];
      assert funcs[..k] == funcs[..k - 1] + [f];
      MadeAppend(AllUnitOps(us[..k - 1]), Compares(funcs[..k - 1]), UnitOps(us[k - 1]), ComparesStmts(f.body));
      assert Compares(funcs[..k]) <==> Compares(funcs[..k - 1]) || ComparesStmts(f.body);
    }
  }

  lemma MadeProgram(funcs: seq<Function>, top: Word)
    requires FewParams(funcs)
    ensures Made(CompProgram(funcs, top), Compares(funcs))
  {
    hide Made, StartOps, AllUnitOps, UnitsOf;
    MadeStub(top);
    MadeUnits(funcs, |funcs|);
    assert UnitsOf(funcs)[..|funcs|] == UnitsOf(funcs) && funcs[..|funcs|] == funcs;
    MadeAppend([Mark(Start)] + StartOps(top), false, AllUnitOps(UnitsOf(funcs)), Compares(funcs));
  }

  /** Equal label names are an error of the assembler. */
  lemma {:induction false} ClashIsRefused(items: seq<Item>, naming: Naming)
    requires !NamesApart(Named(items), naming) && |Texts(items)| <= 0xFFFF && AllCode(Texts(items))
    ensures Asm.First(LinesOf(items, naming)).errors > 0
    decreases |items|
  {
    hide NamesApart, Asm.Place, AllCode, Named, Texts, Symbols, LinesOf, Asm.First;
    NoClash(naming);
    var init, last := items[..|items| - 1], items[|items| - 1];
    assert items == init + [last];
    TextsAppend(init, [last]);
    TextsOne(last);
    PrefixCode(Texts(init), Texts([last]));
    FirstSnoc(items, naming);
    if NamesApart(Named(init), naming) {
      FirstOfItems(init, naming);
      assert last.Label? by { assert Named(init) + [] == Named(init); }
      SymbolNames(init, naming);
      Clash(Symbols(init, naming), Named(init), last.l, naming);
      Dis.LabelsOne(Asm.First(LinesOf(init, naming)), naming(last.l));
    } else {
      ClashIsRefused(init, naming);
      ErrorsStay(Asm.First(LinesOf(init, naming)), LineOf(last, naming));
    }
  }

  lemma FirstSnoc(items: seq<Item>, naming: Naming)
    requires items != []
    ensures Asm.First(LinesOf(items, naming)) ==
            Asm.Line1(Asm.First(LinesOf(items[..|items| - 1], naming)), LineOf(items[|items| - 1], naming))
  {
    hide LineOf, Asm.Line1;
    var src := LinesOf(items, naming);
    assert src[..|items| - 1] == LinesOf(items[..|items| - 1], naming);
  }

  lemma NoClash(naming: Naming)
    ensures NamesApart(Named([]), naming)
  {
  }

  lemma Clash(syms: Asm.Symbols, ls: seq<Bs9Ops.Label>, l: Bs9Ops.Label, naming: Naming)
    requires Covers(syms, ls, naming) && NamesApart(ls, naming)
    ensures Key(l, naming) !in syms && |syms| < Asm.MaxLabels ==> NamesApart(ls + [l], naming)
  {
    var all := ls + [l];
    if Key(l, naming) !in syms && |syms| < Asm.MaxLabels {
      forall i, j | 0 <= i < j < |all|
        ensures Key(all[i], naming) != Key(all[j], naming)
      {
        assert all[i] == ls[i];
        if j < |ls| {
          assert all[j] == ls[j];
        }
      }
    }
  }

  lemma ErrorsStay(st: Asm.Pass1, line: Asm.SrcLine)
    requires st.errors > 0
    ensures Asm.Line1(st, line).errors > 0
  {
    Agree.AddLabelsExtends(st, line.labels);
  }

  /** The text the compiler prints assembles exactly when all its label names are different and the program uses none of
      ==, !=, < and >=, or the stray name they leave in the text is that of a label not past address 122. It assembles to
      the words of the code exactly when, in the latter case, that address is 0. */
  lemma ProgramAssembles(funcs: seq<Function>, top: Word, naming: Naming)
    requires FewParams(funcs) && ItemsOf(funcs, top, naming).Some?
    requires |CodeOf(ItemsOf(funcs, top, naming).value)| <= 0xFFFF
    ensures var items := ItemsOf(funcs, top, naming).value;
            var apart, a := NamesApart(Marks(CompProgram(funcs, top)), naming), StrayLabel(Symbols(items, naming));
            var text := Asm.Assemble(LinesOf(items, naming));
            && (text.Some? <==> apart && (!Compares(funcs) || Reachable(a)))
            && (text == Some(WordsOf(CodeOf(items))) <==> apart && (!Compares(funcs) || a == Some(0)))
  {
    hide CompProgram, EmitOps, Record, NamesApart, Compares, Generated, CodeOf, OpsCode, Size, Marks, Asm.First, ReadBack,
      Symbols, StrayLabel;
    var ops, tab := CompProgram(funcs, top), TableOf(funcs, top, naming);
    var items := ItemsOf(funcs, top, naming).value;
    var a := StrayLabel(Symbols(items, naming));
    MadeProgram(funcs, top);
    PassesAgree(ops, 0, 0, tab, naming);
    if NamesApart(Marks(ops), naming) {
      AssembleItems(ops, tab, naming);
      SpoiledCode(ops, 0, tab, naming, a);
    } else {
      OpsRead(ops, 0, tab, naming, map[]);
      var code, good := OpsCode(ops, 0, tab, StrayLabel(map[])), !HasLeftover(ops) || Reachable(StrayLabel(map[]));
      ReadBackCode(map[], Texts(items), code, good);
      ReadBackSize(map[], 0, Texts(items), code, good);
      SpoiledCode(ops, 0, tab, naming, StrayLabel(map[]));
      ClashIsRefused(items, naming);
    }
  }
}
