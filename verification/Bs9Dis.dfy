/** The disassembler, and when assembling its output gives the image back. */
module Bs9Dis {
  import opened Options
  import opened Words
  import opened Bs9Asm
  import opened Bs9AsmAgree

  type Octal = n: nat | n < 8
  type Nat7Bit = n: nat | n < 128
  type Nat2Bit = n: nat | n < 4

  function CondOf(w: Word): Octal { w / 8192 }
  function OpOf(w: Word): Octal { w / 1024 % 8 }
  function DstMem(w: Word): bool { w / 512 % 2 == 1 }
  function DstOf(w: Word): Reg { w / 32 % 16 }
  function SrcMem(w: Word): bool { w / 16 % 2 == 1 }
  function Base7(w: Word): Nat7Bit { w / 64 % 128 }
  function SubOp(w: Word): Nat2Bit { w / 16 % 4 }
  function Low4(w: Word): Reg { w % 16 }

  /** The fields put together again. */
  lemma Fields(w: Word)
    ensures w == CondOf(w) * 8192 + OpOf(w) * 1024 + Bit(DstMem(w)) * 512 + DstOf(w) * 32 + Bit(SrcMem(w)) * 16 + Low4(w)
    ensures w == CondOf(w) * 8192 + Base7(w) * 64 + SubOp(w) * 16 + Low4(w)
    ensures w == CondOf(w) * 8192 + w / 4096 % 2 * 4096 + w % 4096
    ensures Base7(w) == OpOf(w) * 16 + Bit(DstMem(w)) * 8 + DstOf(w) / 2
  {
    BaseBits(w);
    UpDown(w);
  }

  lemma BaseBits(w: Word)
    ensures w / 64 % 128 == w / 1024 % 8 * 16 + w / 512 % 2 * 8 + w / 64 % 8
  {
    assert w / 64 / 16 == w / 1024 && w / 64 / 8 == w / 512;
    SevenBits(w / 64);
  }

  lemma Halves(w: Word)
    ensures w / 32 == w / 16 / 2 && w / 64 == w / 32 / 2 && w / 128 == w / 64 / 2 && w / 256 == w / 128 / 2
    ensures w / 512 == w / 256 / 2 && w / 1024 == w / 512 / 2 && w / 2048 == w / 1024 / 2
    ensures w / 4096 == w / 2048 / 2 && w / 8192 == w / 4096 / 2
    ensures w / 8192 == w / 1024 / 8 && w / 1024 == w / 64 / 16 && w / 512 == w / 32 / 16
    ensures w / 8192 == w / 64 / 128 && w / 2048 == w / 1024 / 2 && w / 4096 == w / 1024 / 4
    ensures w / 64 == w / 32 / 2 && w / 128 == w / 32 / 4 && w / 256 == w / 32 / 8 && w / 64 == w / 16 / 4
  {
  }

  lemma TwoBits(x: nat)
    ensures x % 4 == x / 2 % 2 * 2 + x % 2
  {
  }

  lemma ThreeBits(x: nat)
    ensures x % 8 == x / 4 % 2 * 4 + x / 2 % 2 * 2 + x % 2
  {
    LowestOfThree(x);
    TwoBits(x / 2);
    HalfTwice(x);
  }

  lemma HalfTwice(x: nat)
    ensures x / 2 / 2 == x / 4
  {
  }

  lemma LowestOfThree(x: nat)
    ensures x % 8 == x / 2 % 4 * 2 + x % 2
  {
  }

  lemma FourBits(x: nat)
    ensures x % 16 == x / 8 % 2 * 8 + x / 4 % 2 * 4 + x / 2 % 2 * 2 + x % 2
    ensures x % 16 / 2 == x / 8 % 2 * 4 + x / 4 % 2 * 2 + x / 2 % 2
  {
    ThreeBits(x / 2);
    assert x / 2 / 2 == x / 4 && x / 2 / 4 == x / 8;
    LowestOfFour(x);
  }

  lemma LowestOfFour(x: nat)
    ensures x % 16 == x / 2 % 8 * 2 + x % 2
  {
  }

  /** The seven bits above the low six: three, one, three. */
  lemma SevenBits(x: nat)
    ensures x % 128 == x / 16 % 8 * 16 + x / 8 % 2 * 8 + x % 8
  {
    assert x / 16 == x / 8 / 2;
  }

  /** Quotient and remainder at the field boundaries. */
  lemma UpDown(w: Word)
    ensures w == w / 8192 * 8192 + w / 1024 % 8 * 1024 + w % 1024
    ensures w % 1024 == w / 512 % 2 * 512 + w / 32 % 16 * 32 + w / 16 % 2 * 16 + w % 16
    ensures w == w / 8192 * 8192 + w / 64 % 128 * 64 + w % 64
    ensures w % 64 == w / 16 % 4 * 16 + w % 16
    ensures w == w / 8192 * 8192 + w / 4096 % 2 * 4096 + w % 4096
    ensures w / 64 % 8 == w / 32 % 16 / 2
  {
    Top(w);
    Middle(w);
    Base(w);
  }

  lemma Top(w: Word)
    ensures w == w / 8192 * 8192 + w / 1024 % 8 * 1024 + w % 1024
    ensures w == w / 8192 * 8192 + w / 4096 % 2 * 4096 + w % 4096
  {
    assert w / 8192 == w / 1024 / 8 && w / 8192 == w / 4096 / 2;
  }

  lemma Middle(w: Word)
    ensures w % 1024 == w / 512 % 2 * 512 + w / 32 % 16 * 32 + w / 16 % 2 * 16 + w % 16
  {
    assert w % 1024 == w / 512 % 2 * 512 + w % 512;
    Lower(w);
  }

  lemma Lower(w: Word)
    ensures w % 512 == w / 32 % 16 * 32 + w / 16 % 2 * 16 + w % 16
  {
    assert w % 512 == w / 32 % 16 * 32 + w % 32;
    assert w % 32 == w / 16 % 2 * 16 + w % 16;
  }

  lemma Base(w: Word)
    ensures w == w / 8192 * 8192 + w / 64 % 128 * 64 + w % 64
    ensures w % 64 == w / 16 % 4 * 16 + w % 16
    ensures w / 64 % 8 == w / 32 % 16 / 2
  {
    AboveSix(w);
    LowSix(w);
    HalfOfSixteen(w / 32);
    HalfTwiceAt32(w);
  }

  lemma AboveSix(w: Word)
    ensures w == w / 8192 * 8192 + w / 64 % 128 * 64 + w % 64
  {
    assert w / 8192 == w / 64 / 128;
  }

  lemma LowSix(w: Word)
    ensures w % 64 == w / 16 % 4 * 16 + w % 16
  {
  }

  lemma HalfOfSixteen(x: nat)
    ensures x / 2 % 8 == x % 16 / 2
  {
    LowestOfFour(x);
  }

  lemma HalfTwiceAt32(w: Word)
    ensures w / 32 / 2 == w / 64
  {
  }

  /** The word has all four bits of 0x18C0. */
  predicate IsJmpWord(w: Word) {
    w / 4096 % 2 == 1 && w / 2048 % 2 == 1 && w / 128 % 2 == 1 && w / 64 % 2 == 1
  }

  lemma JmpFields(w: Word)
    ensures IsJmpWord(w) <==> OpOf(w) >= 6 && DstOf(w) / 2 % 4 == 3
    ensures IsJmpWord(w) ==> (DstOf(w) >= 14 <==> w / 256 % 2 == 1)
  {
    hide DstOf, OpOf;
    DstBits(w);
  }

  lemma DstBits(w: Word)
    ensures OpOf(w) == w / 4096 % 2 * 4 + w / 2048 % 2 * 2 + w / 1024 % 2
    ensures DstOf(w) == w / 256 % 2 * 8 + w / 128 % 2 * 4 + w / 64 % 2 * 2 + w / 32 % 2
  {
    Halves(w);
    ThreeBits(w / 1024);
    FourBits(w / 32);
  }

  function JmpRel(w: Word): (r: int)
    ensures -128 <= r <= 127
  {
    var u := w / 1024 % 2 * 128 + w / 512 % 2 * 64 + w % 64;
    if u >= 128 then u - 256 else u
  }

  function Target(addr: nat, w: Word): int { addr + 1 + JmpRel(w) }

  predicate JumpsTo(words: seq<Word>, addr: int, t: int) {
    0 <= addr < |words| && CondOf(words[addr]) != 7 && IsJmpWord(words[addr])
    && Target(addr, words[addr]) % 0x10000 == t
  }

  /** The address is inside the image and some jump word has it as target. */
  predicate IsTarget(words: seq<Word>, t: int) {
    0 <= t < |words| && JumpFrom(words, |words|, t)
  }

  function Targets(words: seq<Word>): set<int> {
    set t | 0 <= t < |words| && IsTarget(words, t)
  }

  predicate JumpFrom(words: seq<Word>, below: nat, t: int) {
    exists addr :: 0 <= addr < below && JumpsTo(words, addr, t)
  }

  lemma OneMore(words: seq<Word>, k: nat, t: int)
    ensures JumpFrom(words, k + 1, t) <==> JumpFrom(words, k, t) || JumpsTo(words, k, t)
  {
    hide JumpsTo;
  }

  lemma OneTarget(words: seq<Word>, addr: nat)
    requires addr < |words|
    ensures var w := words[addr];
            forall t :: JumpsTo(words, addr, t) <==> CondOf(w) != 7 && IsJmpWord(w) && t == Target(addr, w) % 0x10000
  {
    hide CondOf, IsJmpWord, Target;
  }

  method CollectLabels(words: seq<Word>) returns (labelHere: array<bool>)
    requires |words| <= MaxWords
    ensures fresh(labelHere) && labelHere.Length == MaxWords
    ensures forall t :: 0 <= t < MaxWords ==> (labelHere[t] <==> IsTarget(words, t))
  {
    hide JumpFrom, JumpsTo, IsJmpWord, Target, CondOf;
    labelHere := new bool[MaxWords](i => false);
    NoJump(words);
    for addr := 0 to |words|
      invariant forall t :: 0 <= t < MaxWords ==> (labelHere[t] <==> t < |words| && JumpFrom(words, addr, t))
    {
      ghost var before := labelHere[..];
      var w := words[addr];
      if CondOf(w) != 7 && IsJmpWord(w) {
        var target := Target(addr, w) % 0x10000;
        if target < |words| {
          labelHere[target] := true;
        }
      }
      OneTarget(words, addr);
      forall t | 0 <= t < MaxWords
        ensures labelHere[t] <==> t < |words| && JumpFrom(words, addr + 1, t)
      {
        OneMore(words, addr, t);
        assert before[t] <==> t < |words| && JumpFrom(words, addr, t);
        assert labelHere[t] <==> before[t] || (t < |words| && JumpsTo(words, addr, t));
      }
    }
  }

  lemma NoJump(words: seq<Word>)
    ensures forall t :: !JumpFrom(words, 0, t)
  {
  }

  // ----- printed lines -----

  function Hex(d: nat): char
    requires d < 16
  {
    "0123456789ABCDEF"[d]
  }

  /** L_ and four hexadecimal digits. */
  function LabelName(a: Word): string {
    "L_" + [Hex(a / 4096), Hex(a / 256 % 16), Hex(a / 16 % 16), Hex(a % 16)]
  }

  /** A label name as the assembler compares it. */
  function LabelKey(a: Word): string { Fold(LabelName(a)) }

  lemma HexInjective(d: nat, e: nat)
    requires d < 16 && e < 16 && ToLower(Hex(d)) == ToLower(Hex(e))
    ensures d == e
  {
  }

  lemma LabelKeyInjective(a: Word, b: Word)
    requires LabelKey(a) == LabelKey(b)
    ensures a == b
  {
    hide Hex, ToLower;
    var s, r := LabelKey(a), LabelKey(b);
    assert s[2] == ToLower(Hex(a / 4096)) && r[2] == ToLower(Hex(b / 4096));
    assert s[3] == ToLower(Hex(a / 256 % 16)) && r[3] == ToLower(Hex(b / 256 % 16));
    assert s[4] == ToLower(Hex(a / 16 % 16)) && r[4] == ToLower(Hex(b / 16 % 16));
    assert s[5] == ToLower(Hex(a % 16)) && r[5] == ToLower(Hex(b % 16));
    HexInjective(a / 4096, b / 4096);
    HexInjective(a / 256 % 16, b / 256 % 16);
    HexInjective(a / 16 % 16, b / 16 % 16);
    HexInjective(a % 16, b % 16);
    FourDigits(a);
    FourDigits(b);
  }

  lemma FourDigits(a: Word)
    ensures a == a / 4096 * 4096 + a / 256 % 16 * 256 + a / 16 % 16 * 16 + a % 16
  {
    var b, c := a / 16, a / 256;
    assert c == b / 16 && a / 4096 == c / 16;
  }

  function Number(v: int): Operand {
    Operand(None, None, [if v < 0 then Signed(true, Lit(-v)) else Signed(false, Lit(v))])
  }

  function Symbol(name: string): Operand { Operand(None, None, [Signed(false, Sym(name))]) }

  function RegName(r: Reg): string {
    ["R0", "R1", "R2", "R3", "R4", "R5", "R6", "R7", "R8", "R9", "R10", "R11", "ZERO", "ONE", "FLAG", "PC"][r]
  }

  function RegOperand(r: Reg): Operand { Operand(Some(r), None, [Signed(false, Sym(RegName(r)))]) }

  function RegMemOperand(mem: bool, r: Reg): Operand {
    if mem then Operand(None, Some(r), []) else RegOperand(r)
  }

  function SpecialKind(base7: nat, sub: nat): Kind {
    if base7 == 0x06 then (if sub < 2 then ImplicitR0 else Imm4)
    else if base7 == 0x16 then Imm4
    else OneReg
  }

  predicate IsSpecial(base7: nat) { base7 == 0x06 || base7 == 0x16 || base7 == 0x0E || base7 == 0x1E }

  function PrintedAr0(w: Word): Stmt {
    var imm, shift := w % 4096, w / 4096 % 2;
    Code(Ar0Mn, Some(0), [Number(if shift == 1 then imm * 16 else imm), Number(shift)])
  }

  function PrintedJmp(words: seq<Word>, addr: nat): Stmt
    requires addr < |words| && CondOf(words[addr]) != 7
  {
    var w := words[addr];
    var target := Target(addr, w);
    var wrapped := target % 0x10000;
    Code(JmpMn, Some(CondOf(w)),
         [if IsTarget(words, wrapped) then Symbol(LabelName(wrapped)) else Number(target)])
  }

  function PrintedSpecial(w: Word): Stmt
    requires CondOf(w) != 7
  {
    var kind := SpecialKind(Base7(w), SubOp(w));
    Code(Special(Base7(w), SubOp(w), kind), Some(CondOf(w)),
         [if kind.Imm4? then Number(Low4(w)) else RegOperand(Low4(w))])
  }

  function PrintedGeneric(w: Word): Stmt
    requires CondOf(w) != 7
  {
    Code(Generic(OpOf(w)), Some(CondOf(w)),
         [RegMemOperand(DstMem(w), DstOf(w)), RegMemOperand(SrcMem(w), Low4(w))])
  }

  /** The statement printed for the word at an address. */
  function Printed(words: seq<Word>, addr: nat): Stmt
    requires addr < |words|
  {
    var w := words[addr];
    if CondOf(w) == 7 then PrintedAr0(w)
    else if IsJmpWord(w) then PrintedJmp(words, addr)
    else if IsSpecial(Base7(w)) then PrintedSpecial(w)
    else PrintedGeneric(w)
  }

  function DisLine(words: seq<Word>, addr: nat): SrcLine
    requires addr < |words| <= MaxWords
  {
    SrcLine(if IsTarget(words, addr) then [LabelName(addr)] else [], Some(Printed(words, addr)))
  }

  function Dis(words: seq<Word>): seq<SrcLine>
    requires |words| <= MaxWords
  {
    seq(|words|, addr requires 0 <= addr < |words| => DisLine(words, addr))
  }

  method Disassemble(words: seq<Word>) returns (src: seq<SrcLine>)
    requires |words| <= MaxWords
    ensures src == Dis(words)
  {
    var labelHere := CollectLabels(words);
    src := [];
    for addr := 0 to |words|
      invariant src == Dis(words)[..addr]
    {
      src := src + [SrcLine(if labelHere[addr] then [LabelName(addr)] else [], Some(Printed(words, addr)))];
    }
  }

  // ----- the words that do not come back -----

  /** Neither AR0 nor safe: a shift whose destination field is R12 .. R15. */
  predicate Unsafe(w: Word) { CondOf(w) != 7 && OpOf(w) >= 6 && DstOf(w) >= 12 }

  /** The 11sx110 pattern that BackSlashNine.txt gives to JMP. */
  predicate IsaJmp(w: Word) { CondOf(w) != 7 && w / 2048 % 4 == 3 && w / 64 % 8 == 6 }

  /** No word the assembler writes for JMP is one: by the instruction set it is a shift of R6 or R7. */
  lemma JmpIsAShift(c: CondCode, rel: int)
    requires -128 <= rel <= 127
    ensures var w := JmpWord(c, rel);
            !IsaJmp(w) && CondOf(w) == c && OpOf(w) >= 6 && (DstOf(w) == 6 || DstOf(w) == 7)
  {
    hide JmpWord;
    var u := rel % 256;
    var w := JmpWord(c, rel);
    assert w == c * 8192 + 0x18C0 + u / 128 * 1024 + u / 64 % 2 * 512 + u % 64 by { JmpWordIs(c, rel); }
    JmpShape(c, u / 128, u / 64 % 2, u % 64);
  }

  lemma JmpWordIs(c: CondCode, rel: int)
    requires -128 <= rel <= 127
    ensures var u := rel % 256; JmpWord(c, rel) == c * 8192 + 0x18C0 + u / 128 * 1024 + u / 64 % 2 * 512 + u % 64
  {
  }

  lemma JmpShape(c: CondCode, s: nat, x: nat, low: nat)
    requires s < 2 && x < 2 && low < 64
    ensures var w: Word := c * 8192 + 0x18C0 + s * 1024 + x * 512 + low;
            && w / 64 % 8 == 3 && CondOf(w) == c && OpOf(w) >= 6 && (DstOf(w) == 6 || DstOf(w) == 7)
  {
    var w: Word := c * 8192 + 0x18C0 + s * 1024 + x * 512 + low;
    assert w / 1024 == c * 8 + 6 + s;
    var high := c * 8 + s + 6;
    JmpDst(high * 2 + x, low);
    assert w == (high * 2 + x) * 512 + 0xC0 + low;
  }

  lemma JmpDst(h: nat, low: nat)
    requires low < 64
    ensures var w := h * 512 + 0xC0 + low;
            && w / 64 % 8 == 3 && (w / 32 % 16 == 6 || w / 32 % 16 == 7)
  {
    var w := h * 512 + 0xC0 + low;
    assert w / 64 == h * 8 + 3;
    assert w / 32 == h * 16 + 6 + low / 32;
    ThreeOfEight(h);
    SixOfSixteen(h, low / 32);
  }

  lemma ThreeOfEight(h: nat)
    ensures (h * 8 + 3) % 8 == 3
  {
  }

  lemma SixOfSixteen(h: nat, b: nat)
    requires b <= 1
    ensures (h * 16 + 6 + b) % 16 == 6 + b
  {
  }

  /** R12 and R13 are printed as a shift the assembler rejects, R14 and R15 as a jump that loses bit 8. */
  function ReadBack(w: Word): Encoded {
    if !Unsafe(w) then Enc(w) else if DstOf(w) < 14 then Rejected else Enc(w - 256)
  }

  lemma ReadBackIsIdentity(w: Word)
    ensures ReadBack(w) == Enc(w) <==> !Unsafe(w)
  {
  }

  lemma NumberValue(tab: Symbols, v: int)
    ensures Eval(tab, Number(v).expr) == Some(v)
  {
    var e := Number(v).expr;
    assert e[1..] == [];
    assert SumValue(tab, e[1..]) == Some(0);
  }

  lemma SymbolValue(tab: Symbols, name: string)
    requires Fold(name) in tab
    ensures Eval(tab, Symbol(name).expr) == Some(tab[Fold(name)] as int)
  {
    var e := Symbol(name).expr;
    assert e[1..] == [];
    assert SumValue(tab, e[1..]) == Some(0);
  }

  /** The labels printed for addresses below k. */
  function Table(words: seq<Word>, k: nat): Symbols
    requires k <= |words| <= MaxWords
  {
    if k == 0 then map[]
    else if IsTarget(words, k - 1) then Table(words, k - 1)[LabelKey(k - 1) := k - 1]
    else Table(words, k - 1)
  }

  lemma {:induction false} TableHas(words: seq<Word>, k: nat, t: Word)
    requires k <= |words| <= MaxWords
    ensures LabelKey(t) in Table(words, k) <==> t < k && IsTarget(words, t)
    ensures LabelKey(t) in Table(words, k) ==> Table(words, k)[LabelKey(t)] == t
    decreases k
  {
    hide LabelKey, IsTarget;
    if k > 0 {
      TableHas(words, k - 1, t);
      if LabelKey(t) == LabelKey(k - 1) {
        LabelKeyInjective(t, k - 1);
      }
    }
  }

  function TargetsBelow(words: seq<Word>, k: int): set<int> { set t | 0 <= t < k && IsTarget(words, t) }

  lemma OneMoreTarget(words: seq<Word>, k: int)
    requires k > 0
    ensures |TargetsBelow(words, k)| == |TargetsBelow(words, k - 1)| + Bit(IsTarget(words, k - 1))
  {
    hide IsTarget;
    if IsTarget(words, k - 1) {
      assert TargetsBelow(words, k) == TargetsBelow(words, k - 1) + {k - 1};
    } else {
      assert TargetsBelow(words, k) == TargetsBelow(words, k - 1);
    }
  }

  lemma {:induction false} TableSize(words: seq<Word>, k: nat)
    requires k <= |words| <= MaxWords
    ensures |Table(words, k)| == |TargetsBelow(words, k)|
    decreases k
  {
    hide IsTarget, LabelKey, TargetsBelow;
    if k > 0 {
      TableSize(words, k - 1);
      TableHas(words, k - 1, k - 1);
      OneMoreTarget(words, k);
    } else {
      NoTargets(words);
    }
  }

  lemma NoTargets(words: seq<Word>)
    ensures TargetsBelow(words, 0) == {}
  {
  }

  predicate WithinLimits(words: seq<Word>) { |words| <= 65408 && |Targets(words)| <= MaxLabels }

  function PlacedLine(words: seq<Word>, i: nat): Placed
    requires i < |words| <= MaxWords
  {
    Placed(Printed(words, i), i, 1)
  }

  function PlacedLines(words: seq<Word>, k: nat): seq<Placed>
    requires k <= |words| <= MaxWords
  {
    seq(k, i requires 0 <= i < k => PlacedLine(words, i))
  }

  lemma {:induction false} FirstOfDis(words: seq<Word>, k: nat)
    requires k <= |words| && WithinLimits(words)
    ensures First(Dis(words)[..k]) == Pass1(Table(words, k), PlacedLines(words, k), k, 0)
    decreases k
  {
    hide Printed, LabelName, IsTarget, AddLabels;
    var src := Dis(words);
    if k == 0 {
      assert src[..0] == [];
    } else {
      FirstOfDis(words, k - 1);
      assert src[..k][..k - 1] == src[..k - 1];
      var st := First(src[..k - 1]);
      var named := AddLabels(st, src[k - 1].labels);
      NextLabels(words, k - 1, st);
      assert Printed(words, k - 1).Code? by { PrintedIsCode(words, k - 1); }
      PlacedOne(words, k - 1, named);
    }
  }

  lemma PrintedIsCode(words: seq<Word>, i: nat)
    requires i < |words|
    ensures Printed(words, i).Code?
  {
  }

  lemma PlacedOne(words: seq<Word>, k: nat, st: Pass1)
    requires k < |words| <= MaxWords && Printed(words, k).Code?
    requires st.lines == PlacedLines(words, k) && st.pc == k && st.errors == 0
    ensures Place(st, Printed(words, k)) == Pass1(st.tab, PlacedLines(words, k + 1), k + 1, 0)
  {
    hide Printed;
    assert PlacedLines(words, k + 1) == PlacedLines(words, k) + [PlacedLine(words, k)];
  }

  lemma NextLabels(words: seq<Word>, k: nat, st: Pass1)
    requires k < |words| && WithinLimits(words)
    requires st == Pass1(Table(words, k), PlacedLines(words, k), k, 0)
    ensures AddLabels(st, DisLine(words, k).labels) == st.(tab := Table(words, k + 1))
  {
    hide LabelName, IsTarget, Printed;
    if IsTarget(words, k) {
      var before := TargetsBelow(words, k);
      TableHas(words, k, k);
      TableSize(words, k);
      assert before + {k} <= Targets(words);
      SmallerSet(before + {k}, Targets(words));
      LabelsOne(st, LabelName(k));
    }
  }

  lemma {:induction false} LabelsOne(st: Pass1, name: string)
    ensures AddLabels(st, [name]) == AddLabel(st, name)
  {
    assert [name][1..] == [];
  }

  lemma {:induction false} SmallerSet<T>(a: set<T>, b: set<T>)
    requires a <= b
    ensures |a| <= |b|
    decreases a
  {
    if a != {} {
      var x :| x in a;
      SmallerSet(a - {x}, b - {x});
    }
  }

  /** What the second pass makes of each printed line. */
  function Reread(tab: Symbols, addr: Word, s: Stmt): Encoded
    requires s.Code?
  {
    Encode(tab, addr, s.mn, s.cond, s.ops)
  }

  lemma {:induction false} PrintedEncodes(words: seq<Word>, i: nat)
    requires i < |words| && WithinLimits(words)
    ensures Printed(words, i).Code?
    ensures Reread(Table(words, |words|), i, Printed(words, i)) == ReadBack(words[i])
  {
    hide Reread, CondOf, Base7, IsJmpWord, Table, PrintedJmp, PrintedSpecial, PrintedGeneric, PrintedAr0;
    var tab, w := Table(words, |words|), words[i];
    if CondOf(w) == 7 {
      Ar0Encodes(tab, i, w);
    } else if IsJmpWord(w) {
      JmpEncodes(words, i);
    } else if IsSpecial(Base7(w)) {
      SpecialEncodes(tab, i, w);
    } else {
      GenericEncodes(tab, i, w);
    }
  }

  lemma Ar0Encodes(tab: Symbols, addr: Word, w: Word)
    requires CondOf(w) == 7
    ensures PrintedAr0(w).Code? && Reread(tab, addr, PrintedAr0(w)) == Enc(w)
  {
    hide Eval, Number;
    var imm, shift := w % 4096, w / 4096 % 2;
    NumberValue(tab, imm * 16);
    NumberValue(tab, imm);
    NumberValue(tab, shift);
    Fields(w);
  }

  lemma SpecialEncodes(tab: Symbols, addr: Word, w: Word)
    requires CondOf(w) != 7 && !IsJmpWord(w) && IsSpecial(Base7(w))
    ensures PrintedSpecial(w).Code? && Reread(tab, addr, PrintedSpecial(w)) == ReadBack(w)
  {
    hide Eval, Number, CondOf, Base7, SubOp, Low4, DstOf, OpOf, DstMem, SrcMem, IsJmpWord;
    NumberValue(tab, Low4(w));
    Fields(w);
    JmpFields(w);
  }

  lemma GenericEncodes(tab: Symbols, addr: Word, w: Word)
    requires CondOf(w) != 7 && !IsJmpWord(w) && !IsSpecial(Base7(w))
    ensures PrintedGeneric(w).Code? && Reread(tab, addr, PrintedGeneric(w)) == ReadBack(w)
  {
    hide CondOf, Base7, SubOp, Low4, DstOf, OpOf, DstMem, SrcMem, IsJmpWord;
    Fields(w);
    JmpFields(w);
  }

  lemma {:induction false} JmpEncodes(words: seq<Word>, i: nat)
    requires i < |words| && WithinLimits(words) && CondOf(words[i]) != 7 && IsJmpWord(words[i])
    ensures PrintedJmp(words, i).Code?
    ensures Reread(Table(words, |words|), i, PrintedJmp(words, i)) == ReadBack(words[i])
  {
    hide CondOf, Base7, IsJmpWord, JmpRel, JmpWord, Unsafe, Eval, LabelName, Table, Number, Symbol;
    var tab, w := Table(words, |words|), words[i];
    var target := Target(i, w);
    var wrapped := target % 0x10000;
    if IsTarget(words, wrapped) {
      TableHas(words, |words|, wrapped);
      SymbolValue(tab, LabelName(wrapped));
    }
    NumberValue(tab, target);
    JmpWordBits(w);
  }

  lemma JmpWordBits(w: Word)
    requires CondOf(w) != 7 && IsJmpWord(w)
    ensures JmpWord(CondOf(w), JmpRel(w)) == (if Unsafe(w) then w - 256 else w)
    ensures Unsafe(w) ==> DstOf(w) >= 14
  {
    hide DstOf, OpOf, IsJmpWord, CondOf, JmpWord;
    JmpFields(w);
    JmpWordSplit(CondOf(w), w / 1024 % 2, w / 512 % 2, w % 64);
    JmpSum(w);
  }

  lemma JmpWordSplit(c: CondCode, s: nat, x: nat, low: nat)
    requires s < 2 && x < 2 && low < 64
    ensures var u := s * 128 + x * 64 + low;
            JmpWord(c, if u >= 128 then u - 256 else u) == c * 8192 + 0x18C0 + s * 1024 + x * 512 + low
  {
    var u := s * 128 + x * 64 + low;
    assert (if u >= 128 then u - 256 else u) % 256 == u;
  }

  /** A jump word is its condition, the bits of 0x18C0, bits 10, 9 and 8 and the low six. */
  lemma JmpSum(w: Word)
    requires IsJmpWord(w)
    ensures w == CondOf(w) * 8192 + 0x18C0 + w / 1024 % 2 * 1024 + w / 512 % 2 * 512 + w / 256 % 2 * 256 + w % 64
    ensures DstOf(w) >= 14 <==> w / 256 % 2 == 1
    ensures OpOf(w) >= 6
  {
    hide DstOf, OpOf;
    JmpFields(w);
    JmpHigh(w);
    JmpLow(w);
  }

  lemma JmpHigh(w: Word)
    requires w / 4096 % 2 == 1 && w / 2048 % 2 == 1
    ensures w == w / 8192 * 8192 + 0x1800 + w % 2048
  {
    assert w / 8192 == w / 4096 / 2 && w / 4096 == w / 2048 / 2;
  }

  lemma JmpLow(w: Word)
    requires w / 128 % 2 == 1 && w / 64 % 2 == 1
    ensures w % 2048 == 0xC0 + w / 1024 % 2 * 1024 + w / 512 % 2 * 512 + w / 256 % 2 * 256 + w % 64
  {
    JmpMid(w);
    TopBit(w, 256);
    TopBit(w, 512);
    TopBit(w, 1024);
  }

  lemma TopBit(w: Word, k: nat)
    requires k == 256 || k == 512 || k == 1024
    ensures w % (2 * k) == w / k % 2 * k + w % k
  {
  }

  lemma JmpMid(w: Word)
    requires w / 128 % 2 == 1 && w / 64 % 2 == 1
    ensures w % 256 == 0xC0 + w % 64
  {
    assert w / 128 == w / 64 / 2;
    assert w % 256 == w / 128 % 2 * 128 + w % 128;
  }

  /** What the assembler reads back from the disassembly, line by line. */
  function ReadBacks(words: seq<Word>): seq<Option<Word>> {
    seq(|words|, i requires 0 <= i < |words| => Back(words[i]))
  }

  function Back(w: Word): Option<Word> { if ReadBack(w).Enc? then Some(ReadBack(w).w) else None }

  /** Disassembling and assembling gives the same image exactly when no word is unsafe. */
  lemma RoundTrip(words: seq<Word>)
    requires WithinLimits(words)
    ensures Assemble(Dis(words)) == Some(words) <==> forall i :: 0 <= i < |words| ==> !Unsafe(words[i])
  {
    hide Assemble, First, WordPerLine, Unsafe, PlacedLines, Table, AllSome, ReadBack;
    var src, n := Dis(words), |words|;
    FirstOfDis(words, n);
    assert src[..n] == src;
    LinesRead(words);
    AssembleWords(src, ReadBacks(words));
    SafeOrNot(words);
    if AllSome(ReadBacks(words)) {
      SameWords(words, Assemble(src).value);
    }
  }

  lemma SameWords(words: seq<Word>, image: seq<Word>)
    requires |image| == |words|
    requires forall i | 0 <= i < |words| :: ReadBacks(words)[i] == Some(image[i])
    ensures image == words <==> ReadBacks(words) == seq(|words|, i requires 0 <= i < |words| => Some(words[i]))
  {
    hide ReadBack;
    var same := seq(|words|, i requires 0 <= i < |words| => Some(words[i]));
    if ReadBacks(words) == same {
      forall i | 0 <= i < |words|
        ensures image[i] == words[i]
      {
        assert same[i] == Some(words[i]);
      }
    }
  }

  lemma SafeOrNot(words: seq<Word>)
    ensures ReadBacks(words) == seq(|words|, i requires 0 <= i < |words| => Some(words[i])) <==>
            forall i :: 0 <= i < |words| ==> !Unsafe(words[i])
    ensures (forall i :: 0 <= i < |words| ==> !Unsafe(words[i])) ==> AllSome(ReadBacks(words))
  {
    hide Unsafe, ReadBack;
    var same := seq(|words|, i requires 0 <= i < |words| => Some(words[i]));
    forall i | 0 <= i < |words|
      ensures ReadBacks(words)[i] == same[i] <==> !Unsafe(words[i])
    {
      ReadBackIsIdentity(words[i]);
    }
  }

  lemma {:induction false} LinesRead(words: seq<Word>)
    requires WithinLimits(words)
    ensures WordPerLine(Table(words, |words|), PlacedLines(words, |words|), ReadBacks(words))
  {
    hide Table, ReadsAs, PlacedLine, Back;
    var tab, lines := Table(words, |words|), PlacedLines(words, |words|);
    forall i | 0 <= i < |words|
      ensures ReadsAs(tab, lines[i], i, ReadBacks(words)[i])
    {
      LineReads(words, i);
    }
  }

  lemma {:induction false} LineReads(words: seq<Word>, i: nat)
    requires i < |words| && WithinLimits(words)
    ensures ReadsAs(Table(words, |words|), PlacedLine(words, i), i, Back(words[i]))
  {
    hide Printed, Reread, Table, Contents, Unsafe;
    PrintedEncodes(words, i);
    RereadContents(Table(words, |words|), PlacedLine(words, i));
  }

  lemma RereadContents(tab: Symbols, p: Placed)
    requires p.stmt.Code?
    ensures Reread(tab, p.addr, p.stmt).Enc? ==> Contents(tab, p) == Some([Reread(tab, p.addr, p.stmt).w])
    ensures Reread(tab, p.addr, p.stmt).Rejected? ==> Contents(tab, p) == None
  {
  }
}
