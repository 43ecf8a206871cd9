/** Every operand list the assembler accepts, by what the word then says to the machine. The words are read by the
    fields of the instruction set, not by the functions that build them. */
module Bs9Forms {
  import opened Options
  import opened Words
  import opened Bs9Asm
  import opened Bs9Dis
  import Isa = Bs9Isa

  // ----- expressions -----

  lemma {:induction false} SumOfTwo(tab: Symbols, e: Sum, f: Sum)
    ensures SumValue(tab, e + f) ==
            if SumValue(tab, e).None? || SumValue(tab, f).None? then None
            else Some(SumValue(tab, e).value + SumValue(tab, f).value)
    decreases |e|
  {
    hide TermValue;
    if e == [] {
      assert e + f == f;
    } else {
      assert (e + f)[1..] == e[1..] + f;
      SumOfTwo(tab, e[1..], f);
    }
  }

  lemma {:induction false} SumOfOne(tab: Symbols, neg: bool, v: int)
    ensures SumValue(tab, [Signed(neg, Lit(v))]) == Some(if neg then -v else v)
  {
    assert [Signed(neg, Lit(v))][1..] == [];
    assert SumValue(tab, []) == Some(0);
  }

  lemma {:induction false} SymbolAlone(tab: Symbols, neg: bool, name: string)
    ensures SumValue(tab, [Signed(neg, Sym(name))]) ==
            if Fold(name) !in tab then None else Some(if neg then -(tab[Fold(name)] as int) else tab[Fold(name)])
  {
    hide Fold;
    assert [Signed(neg, Sym(name))][1..] == [];
    assert SumValue(tab, []) == Some(0);
  }

  /** `end - start` is the distance between two labels, whatever their letter case. */
  lemma Distance(tab: Symbols, end: string, start: string)
    ensures Eval(tab, [Signed(false, Sym(end)), Signed(true, Sym(start))]) ==
            if Fold(end) !in tab || Fold(start) !in tab then None else Some(tab[Fold(end)] as int - tab[Fold(start)])
  {
    hide Fold, SumValue;
    var a, b := [Signed(false, Sym(end))], [Signed(true, Sym(start))];
    assert a + b == [Signed(false, Sym(end)), Signed(true, Sym(start))];
    SumOfTwo(tab, a, b);
    SymbolAlone(tab, false, end);
    SymbolAlone(tab, true, start);
  }

  // ----- the fields of the words -----

  predicate GenericFields(w: Word, c: CondCode, op: nat, dm: bool, d: Reg, sm: bool, s: Reg) {
    CondOf(w) == c && OpOf(w) == op && DstMem(w) == dm && DstOf(w) == d && SrcMem(w) == sm && Low4(w) == s
  }

  predicate SpecialFields(w: Word, c: CondCode, base7: nat, sub: nat, low: nat) {
    CondOf(w) == c && Base7(w) == base7 && SubOp(w) == sub && Low4(w) == low
  }

  lemma GenericIs(w: Word, c: CondCode, op: nat, dm: bool, d: Reg, sm: bool, s: Reg)
    requires op < 8
    ensures w == GenericWord(c, op, dm, d, sm, s) <==> GenericFields(w, c, op, dm, d, sm, s)
  {
    hide CondOf, OpOf, DstMem, DstOf, SrcMem, Low4;
    Fields(w);
    if w == GenericWord(c, op, dm, d, sm, s) {
      GenericHas(w, c, op, dm, d, sm, s);
    }
  }

  lemma GenericHas(w: Word, c: CondCode, op: nat, dm: bool, d: Reg, sm: bool, s: Reg)
    requires op < 8 && w == c * 8192 + op * 1024 + Bit(dm) * 512 + d * 32 + Bit(sm) * 16 + s
    ensures GenericFields(w, c, op, dm, d, sm, s)
  {
    var x, y := Bit(dm), Bit(sm);
    assert w / 16 == c * 512 + op * 64 + x * 32 + d * 2 + y && w % 16 == s;
    assert w / 32 == c * 256 + op * 32 + x * 16 + d;
    assert w / 512 == c * 16 + op * 2 + x;
    assert w / 1024 == c * 8 + op;
    assert w / 8192 == c;
  }

  lemma SpecialIs(w: Word, c: CondCode, base7: nat, sub: nat, low: nat)
    requires base7 < 128 && sub < 4 && low < 16
    ensures w == SpecialWord(c, base7, sub, low) <==> SpecialFields(w, c, base7, sub, low)
  {
    hide CondOf, Base7, SubOp, Low4;
    Fields(w);
    if w == SpecialWord(c, base7, sub, low) {
      SpecialHas(w, c, base7, sub, low);
    }
  }

  lemma SpecialHas(w: Word, c: CondCode, base7: nat, sub: nat, low: nat)
    requires base7 < 128 && sub < 4 && low < 16 && w == c * 8192 + base7 * 64 + sub * 16 + low
    ensures SpecialFields(w, c, base7, sub, low)
  {
    assert w / 16 == c * 512 + base7 * 4 + sub && w % 16 == low;
    assert w / 64 == c * 128 + base7;
    assert w / 8192 == c;
  }

  /** A jump word with bit 8 clear, as the assembler writes them. */
  predicate Jumps(w: Word, c: CondCode, addr: Word, target: int) {
    CondOf(w) == c && IsJmpWord(w) && w / 256 % 2 == 0 && Target(addr, w) == target
  }

  lemma JmpIs(w: Word, c: CondCode, addr: Word, target: int)
    ensures (-128 <= target - (addr + 1) <= 127 && w == JmpWord(c, target - (addr + 1))) <==>
            Jumps(w, c, addr, target)
  {
    hide CondOf, JmpWord, IsJmpWord, JmpRel;
    var rel := target - (addr + 1);
    if -128 <= rel <= 127 && w == JmpWord(c, rel) {
      JmpHas(w, c, rel);
    }
    if Jumps(w, c, addr, target) {
      JmpBack(w);
    }
  }

  lemma JmpBack(w: Word)
    requires CondOf(w) != 7 && IsJmpWord(w) && w / 256 % 2 == 0
    ensures w == JmpWord(CondOf(w), JmpRel(w))
  {
    hide CondOf, JmpWord, IsJmpWord, JmpRel, OpOf, DstOf;
    JmpFields(w);
    JmpWordBits(w);
  }

  lemma JmpHas(w: Word, c: CondCode, rel: int)
    requires -128 <= rel <= 127 && w == JmpWord(c, rel)
    ensures CondOf(w) == c && IsJmpWord(w) && w / 256 % 2 == 0 && JmpRel(w) == rel
  {
    hide JmpWord, IsJmpWord, JmpRel, CondOf;
    JmpWordIs(c, rel);
    var u := rel % 256;
    JmpFromBits(w, c, u / 128, u / 64 % 2, u % 64);
    SevenAndSix(u);
    RelIs(w, u);
  }

  lemma SevenAndSix(u: nat)
    requires u < 256
    ensures u == u / 128 * 128 + u / 64 % 2 * 64 + u % 64
  {
    assert u / 128 == u / 64 / 2;
  }

  lemma RelIs(w: Word, u: nat)
    requires u < 256 && w / 1024 % 2 * 128 + w / 512 % 2 * 64 + w % 64 == u
    ensures JmpRel(w) == if u >= 128 then u - 256 else u
  {
  }

  lemma JmpFromBits(w: Word, c: CondCode, s: nat, x: nat, low: nat)
    requires s < 2 && x < 2 && low < 64 && w == c * 8192 + 0x18C0 + s * 1024 + x * 512 + low
    ensures CondOf(w) == c && IsJmpWord(w) && w / 256 % 2 == 0
    ensures w / 1024 % 2 == s && w / 512 % 2 == x && w % 64 == low
  {
    assert w / 64 == c * 128 + 99 + s * 16 + x * 8 && w % 64 == low;
    assert w / 128 == c * 64 + 49 + s * 8 + x * 4;
    assert w / 256 == c * 32 + 24 + s * 4 + x * 2;
    assert w / 512 == c * 16 + 12 + s * 2 + x;
    assert w / 1024 == c * 8 + 6 + s;
    assert w / 2048 == c * 4 + 3;
    assert w / 4096 == c * 2 + 1;
    assert w / 8192 == c;
  }

  // ----- immediate assignment -----

  /** The fields of an immediate assignment, as an instruction. */
  function Ar0Of(w: Word): Isa.Instr { Isa.Ar0(w % 4096, w / 4096 % 2 == 1) }

  /** What the word leaves in R0, from any state. */
  ghost predicate LeavesInR0(w: Word, v: int) {
    forall s: Isa.State :: Isa.Effect(Ar0Of(w), s).regs[0] == v
  }

  lemma LeavesIs(w: Word, v: int)
    ensures LeavesInR0(w, v) <==> v == if w / 4096 % 2 == 1 then w % 4096 * 16 else w % 4096
  {
    var k := if w / 4096 % 2 == 1 then w % 4096 * 16 else w % 4096;
    forall s: Isa.State
      ensures Isa.Effect(Ar0Of(w), s).regs[0] == k
    {
    }
    var s := Isa.State(0, seq(12, i => 0), false, false, seq(0x10000, i => 0));
    assert Isa.Effect(Ar0Of(w), s).regs[0] == k;
  }

  lemma Ar0Is(w: Word, imm: nat, shift: bool)
    requires imm < 4096
    ensures w == Ar0Word(imm, shift) <==> CondOf(w) == 7 && w % 4096 == imm && (w / 4096 % 2 == 1) == shift
  {
    Fields(w);
    if w == Ar0Word(imm, shift) {
      assert w / 4096 == 14 + Bit(shift) && w % 4096 == imm;
    }
  }

  // ----- statements -----

  predicate Names(o: Operand, mem: bool, r: Reg) {
    if mem then o.mem == Some(r) else o.mem.None? && o.reg == Some(r)
  }

  /** The destinations whose words the instruction set gives another meaning. */
  predicate Reinterpreted(op: nat, d: Reg) { (op < 2 || op >= 6) && (d == 12 || d == 13) }

  predicate GenericSays(op: nat, c: CondCode, ops: seq<Operand>, w: Word) {
    && |ops| == 2 && CondOf(w) == c && OpOf(w) == op && !Reinterpreted(op, DstOf(w))
    && Names(ops[0], DstMem(w), DstOf(w)) && Names(ops[1], SrcMem(w), Low4(w))
  }

  /** R0 may be named before the register of an instruction that works on R0. */
  predicate SpecialSays(tab: Symbols, kind: Kind, ops: seq<Operand>, low: Reg) {
    match kind
    case ImplicitR0 =>
      || (|ops| == 1 && ops[0].reg == Some(low))
      || (|ops| == 2 && ops[0].reg == Some(0) && ops[1].reg == Some(low))
    case OneReg => |ops| == 1 && ops[0].reg == Some(low)
    case Imm4 => |ops| == 1 && Eval(tab, ops[0].expr) == Some(low as int)
  }

  /** The word leaves the first operand in R0. The shift is the second operand; without one it is used only for
      values that need it. */
  ghost predicate Ar0Says(tab: Symbols, c: CondCode, ops: seq<Operand>, w: Word) {
    && c == 0 && CondOf(w) == 7 && (|ops| == 1 || |ops| == 2)
    && var v := Eval(tab, ops[0].expr);
    && v.Some? && LeavesInR0(w, v.value)
    && if |ops| == 2 then Eval(tab, ops[1].expr) == Some(w / 4096 % 2) else w / 4096 % 2 == 1 ==> v.value >= 4096
  }

  ghost predicate Says(tab: Symbols, addr: Word, mn: Mnemonic, c: CondCode, ops: seq<Operand>, w: Word) {
    match mn
    case Generic(op) => GenericSays(op, c, ops, w)
    case Special(b, s, kind) =>
      CondOf(w) == c && Base7(w) == b && SubOp(w) == s && SpecialSays(tab, kind, ops, Low4(w))
    case JmpMn =>
      |ops| == 1 && Eval(tab, ops[0].expr).Some? && Jumps(w, c, addr, Eval(tab, ops[0].expr).value)
    case Ar0Mn => Ar0Says(tab, c, ops, w)
    case UnknownMn => false
  }

  /** A statement is encoded as a word exactly if the fields of the word say what its operands do: there is at most
      one such word, and the statement is refused only if there is none. */
  lemma EncodeSays(tab: Symbols, addr: Word, mn: Mnemonic, cond: Option<CondCode>, ops: seq<Operand>, w: Word)
    ensures Encode(tab, addr, mn, cond, ops) == Enc(w) <==> cond.Some? && Says(tab, addr, mn, cond.value, ops, w)
  {
    hide GenericSays, SpecialSays, Ar0Says, EncodeGeneric, EncodeSpecial, EncodeJmp, EncodeAr0, Eval, Jumps;
    hide CondOf, OpOf, DstMem, DstOf, SrcMem, Low4, Base7, SubOp;
    if cond.Some? {
      match mn
      case Generic(op) => GenericForm(op, cond.value, ops, w);
      case Special(b, s, kind) => SpecialForm(tab, b, s, kind, cond.value, ops, w);
      case JmpMn => JmpForm(tab, addr, cond.value, ops, w);
      case Ar0Mn => Ar0Form(tab, cond.value, ops, w);
      case UnknownMn =>
    }
  }

  lemma GenericForm(op: nat, c: CondCode, ops: seq<Operand>, w: Word)
    ensures op < 8 && EncodeGeneric(c, op, ops) == Enc(w) <==> GenericSays(op, c, ops, w)
  {
    hide GenericWord, CondOf, OpOf, DstMem, DstOf, SrcMem, Low4;
    if op < 8 && |ops| == 2 {
      var d, s := RegMem(ops[0]), RegMem(ops[1]);
      if d.Some? && s.Some? {
        GenericIs(w, c, op, d.value.0, d.value.1, s.value.0, s.value.1);
      }
    }
  }

  lemma SpecialForm(tab: Symbols, b: nat, s: nat, kind: Kind, c: CondCode, ops: seq<Operand>, w: Word)
    ensures b < 128 && s < 4 && EncodeSpecial(tab, c, b, s, kind, ops) == Enc(w) <==>
            CondOf(w) == c && Base7(w) == b && SubOp(w) == s && SpecialSays(tab, kind, ops, Low4(w))
  {
    hide SpecialWord, CondOf, Base7, SubOp, Low4, Eval;
    if b < 128 && s < 4 {
      forall low: Reg
        ensures w == SpecialWord(c, b, s, low) <==> SpecialFields(w, c, b, s, low)
      {
        SpecialIs(w, c, b, s, low);
      }
    }
  }

  lemma JmpForm(tab: Symbols, addr: Word, c: CondCode, ops: seq<Operand>, w: Word)
    ensures EncodeJmp(tab, addr, c, ops) == Enc(w) <==>
            |ops| == 1 && Eval(tab, ops[0].expr).Some? && Jumps(w, c, addr, Eval(tab, ops[0].expr).value)
  {
    hide JmpWord, Jumps, Eval;
    if |ops| == 1 && Eval(tab, ops[0].expr).Some? {
      JmpIs(w, c, addr, Eval(tab, ops[0].expr).value);
    }
  }

  lemma Ar0Form(tab: Symbols, c: CondCode, ops: seq<Operand>, w: Word)
    ensures EncodeAr0(tab, c, ops) == Enc(w) <==> Ar0Says(tab, c, ops, w)
  {
    hide Ar0Word, LeavesInR0, CondOf, Eval;
    if |ops| == 1 || |ops| == 2 {
      var v := Eval(tab, ops[0].expr);
      if v.Some? {
        LeavesIs(w, v.value);
        if 0 <= v.value < 4096 {
          Ar0Is(w, v.value, false);
        }
        if 0 <= v.value / 16 < 4096 {
          Ar0Is(w, v.value / 16, true);
        }
      }
    }
  }

  /** One operand is accepted from 0 to 4095, and above if its low nibble is 0 and it fits in 16 bits. With a shift
      the range is that of the shift. */
  lemma Ar0Accepts(tab: Symbols, addr: Word, ops: seq<Operand>)
    ensures Encode(tab, addr, Ar0Mn, Some(0), ops).Enc? <==>
            && (|ops| == 1 || |ops| == 2)
            && var v := Eval(tab, ops[0].expr);
            && v.Some? && 0 <= v.value
            && if |ops| == 1 then v.value < 4096 || (v.value % 16 == 0 && v.value < 0x10000)
               else match Eval(tab, ops[1].expr)
                    case None => false
                    case Some(shift) => (shift == 0 && v.value < 4096) ||
                                        (shift == 1 && v.value % 16 == 0 && v.value < 0x10000)
    ensures Encode(tab, addr, Ar0Mn, Some(0), ops).Enc? || Encode(tab, addr, Ar0Mn, Some(0), ops).Rejected?
  {
    hide Eval, Ar0Word;
  }

  /** `XOR R0, Rx` is `XOR Rx`, and any other first register is refused. */
  lemma ImplicitForms(tab: Symbols, addr: Word, b: nat, s: nat, cond: Option<CondCode>, first: Operand, x: Operand)
    ensures var mn := Special(b, s, ImplicitR0);
            Encode(tab, addr, mn, cond, [first, x]) ==
            if first.reg == Some(0) then Encode(tab, addr, mn, cond, [x]) else Rejected
  {
    hide SpecialWord;
  }

  /** A statement leaves no word and no message exactly if an immediate is not alone. */
  lemma DroppedIs(tab: Symbols, addr: Word, mn: Mnemonic, cond: Option<CondCode>, ops: seq<Operand>)
    ensures Encode(tab, addr, mn, cond, ops).Dropped? <==>
            cond.Some? && KnownMnemonic(mn) && mn.Special? && mn.kind.Imm4? && |ops| != 1
  {
    hide EncodeGeneric, EncodeJmp, EncodeAr0, SpecialWord, Eval;
  }
}
