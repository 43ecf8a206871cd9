/** The BackSlash 9 assembler on tokenised lines: label table, expressions, encoding and the two passes. */
module Bs9Asm {
  import opened Words
  import opened Options

  const MaxLines: nat := 65536
  const MaxLabels: nat := 8192
  const MaxWords: nat := 0x10000

  type Reg = r: nat | r < 16
  type CondCode = c: nat | c < 7

  datatype Term = Lit(v: int) | Sym(name: string)
  datatype Signed = Signed(neg: bool, t: Term)
  type Sum = seq<Signed>

  /** The three readings of an operand text: a register, a register in brackets, an expression. */
  datatype Operand = Operand(reg: Option<Reg>, mem: Option<Reg>, expr: Sum)

  datatype Kind = ImplicitR0 | OneReg | Imm4

  datatype Mnemonic =
    | Generic(op: nat)
    | Special(base7: nat, sub: nat, kind: Kind)
    | JmpMn
    | Ar0Mn
    | UnknownMn

  /** A missing condition is an unknown suffix; no suffix is condition 0. */
  datatype Stmt =
    | Org(e: Sum)
    | EndDir
    | Dw(es: seq<Sum>)
    | Fill(args: seq<Sum>)
    | Code(mn: Mnemonic, cond: Option<CondCode>, ops: seq<Operand>)

  datatype SrcLine = SrcLine(labels: seq<string>, stmt: Option<Stmt>)

  /** Labels by their folded names. */
  type Symbols = map<string, Word>

  // ----- names -----

  function ToLower(c: char): char { if 'A' <= c <= 'Z' then (c as int + 32) as char else c }

  /** Names that differ in letter case only are one name to the assembler. */
  function Fold(s: string): (r: string)
    ensures |r| == |s|
  {
    seq(|s|, i requires 0 <= i < |s| => ToLower(s[i]))
  }

  // ----- expressions -----

  function TermValue(tab: Symbols, t: Term): Option<int> {
    match t
    case Lit(v) => Some(v)
    case Sym(name) => if Fold(name) in tab then Some(tab[Fold(name)]) else None
  }

  function SumValue(tab: Symbols, e: Sum): Option<int> {
    if e == [] then Some(0) else
    var v, rest := TermValue(tab, e[0].t), SumValue(tab, e[1..]);
    if v.None? || rest.None? then None
    else Some((if e[0].neg then -v.value else v.value) + rest.value)
  }

  /** An empty expression is an error. */
  function Eval(tab: Symbols, e: Sum): Option<int> {
    if e == [] then None else SumValue(tab, e)
  }

  function WordValue(tab: Symbols, e: Sum): Option<Word> {
    var v := Eval(tab, e);
    if v.Some? && -32768 <= v.value <= 0xFFFF then Some(v.value % 0x10000) else None
  }

  // ----- encoding -----

  datatype Encoded = Enc(w: Word) | Rejected | Dropped

  function RegMem(o: Operand): Option<(bool, Reg)> {
    if o.mem.Some? then Some((true, o.mem.value))
    else if o.reg.Some? then Some((false, o.reg.value))
    else None
  }

  function Bit(b: bool): nat { if b then 1 else 0 }

  function GenericWord(c: CondCode, op: nat, dm: bool, d: Reg, sm: bool, s: Reg): Word
    requires op < 8
  {
    c * 8192 + op * 1024 + Bit(dm) * 512 + d * 32 + Bit(sm) * 16 + s
  }

  function EncodeGeneric(c: CondCode, op: nat, ops: seq<Operand>): (r: Encoded)
    requires op < 8
    ensures !r.Dropped?
  {
    if |ops| != 2 then Rejected else
    var d, s := RegMem(ops[0]), RegMem(ops[1]);
    if d.None? || s.None? then Rejected else
    if (op == 0 || op == 1 || op == 6 || op == 7) && (d.value.1 == 12 || d.value.1 == 13) then Rejected
    else Enc(GenericWord(c, op, d.value.0, d.value.1, s.value.0, s.value.1))
  }

  function SpecialWord(c: CondCode, base7: nat, sub: nat, low: nat): Word
    requires base7 < 128 && sub < 4 && low < 16
  {
    c * 8192 + base7 * 64 + sub * 16 + low
  }

  function EncodeSpecial(tab: Symbols, c: CondCode, base7: nat, sub: nat, kind: Kind, ops: seq<Operand>): Encoded
    requires base7 < 128 && sub < 4
  {
    match kind
    case ImplicitR0 =>
      if |ops| == 1 && ops[0].reg.Some? then Enc(SpecialWord(c, base7, sub, ops[0].reg.value))
      else if |ops| == 2 && ops[0].reg == Some(0) && ops[1].reg.Some?
      then Enc(SpecialWord(c, base7, sub, ops[1].reg.value))
      else Rejected
    case OneReg =>
      if |ops| == 1 && ops[0].reg.Some? then Enc(SpecialWord(c, base7, sub, ops[0].reg.value)) else Rejected
    case Imm4 =>
      if |ops| != 1 then Dropped else // no word and no error message
      var v := Eval(tab, ops[0].expr);
      if v.Some? && 0 <= v.value <= 15 then Enc(SpecialWord(c, base7, sub, v.value)) else Rejected
  }

  /** The signed offset as eight bits, spread over bits 10, 9 and 5..0. */
  function JmpWord(c: CondCode, rel: int): Word
    requires -128 <= rel <= 127
  {
    var u := rel % 256;
    c * 8192 + 0x18C0 + (u / 128) * 1024 + (u / 64 % 2) * 512 + u % 64
  }

  function EncodeJmp(tab: Symbols, addr: Word, c: CondCode, ops: seq<Operand>): (r: Encoded)
    ensures !r.Dropped?
  {
    if |ops| != 1 then Rejected else
    var target := Eval(tab, ops[0].expr);
    if target.None? then Rejected else
    var rel := target.value - (addr + 1);
    if -128 <= rel <= 127 then Enc(JmpWord(c, rel)) else Rejected
  }

  function Ar0Word(imm: nat, shift: bool): Word
    requires imm < 4096
  {
    0xE000 + Bit(shift) * 4096 + imm
  }

  function EncodeAr0(tab: Symbols, c: CondCode, ops: seq<Operand>): (r: Encoded)
    ensures !r.Dropped?
  {
    if c != 0 || (|ops| != 1 && |ops| != 2) then Rejected else
    var v := Eval(tab, ops[0].expr);
    if v.None? then Rejected else
    if |ops| == 2 then
      var sh := Eval(tab, ops[1].expr);
      if sh == Some(0) && 0 <= v.value < 4096 then Enc(Ar0Word(v.value, false))
      else if sh == Some(1) && v.value % 16 == 0 && 0 <= v.value / 16 < 4096 then Enc(Ar0Word(v.value / 16, true))
      else Rejected
    else if 0 <= v.value < 4096 then Enc(Ar0Word(v.value, false))
    else if v.value % 16 == 0 && 0 <= v.value <= 0xFFF0 then Enc(Ar0Word(v.value / 16, true))
    else Rejected
  }

  predicate KnownMnemonic(mn: Mnemonic) {
    match mn
    case Generic(op) => op < 8
    case Special(b, s, _) => b < 128 && s < 4
    case _ => true
  }

  function Encode(tab: Symbols, addr: Word, mn: Mnemonic, cond: Option<CondCode>, ops: seq<Operand>): Encoded
  {
    if cond.None? || !KnownMnemonic(mn) then Rejected else
    match mn
    case Generic(op) => EncodeGeneric(cond.value, op, ops)
    case Special(b, s, k) => EncodeSpecial(tab, cond.value, b, s, k, ops)
    case JmpMn => EncodeJmp(tab, addr, cond.value, ops)
    case Ar0Mn => EncodeAr0(tab, cond.value, ops)
    case UnknownMn => Rejected
  }

  // ----- first pass -----

  /** A statement with the address and number of words that the first pass reserves for it. */
  datatype Placed = Placed(stmt: Stmt, addr: Word, words: nat)

  datatype Pass1 = Pass1(tab: Symbols, lines: seq<Placed>, pc: nat, errors: nat)

  const Start1: Pass1 := Pass1(map[], [], 0, 0)

  function AddLabel(st: Pass1, name: string): Pass1 {
    if Fold(name) in st.tab || |st.tab| >= MaxLabels then st.(errors := st.errors + 1)
    else st.(tab := st.tab[Fold(name) := st.pc % 0x10000])
  }

  function AddLabels(st: Pass1, names: seq<string>): Pass1
    decreases |names|
  {
    if names == [] then st else AddLabels(AddLabel(st, names[0]), names[1..])
  }

  /** Words a statement reserves, if the first pass accepts it. */
  function Reserved(tab: Symbols, s: Stmt): Option<nat> {
    match s
    case Org(_) => Some(0)
    case EndDir => Some(0)
    case Dw(es) => Some(|es|)
    case Fill(args) =>
      if |args| != 1 && |args| != 2 then None else
      var n := Eval(tab, args[0]);
      if n.Some? && 0 <= n.value <= MaxWords then Some(n.value) else None
    case Code(_, _, _) => Some(1)
  }

  function Place(st: Pass1, s: Stmt): Pass1 {
    if |st.lines| >= MaxLines then st.(errors := st.errors + 1) else
    match s
    case Org(e) =>
      var a := Eval(st.tab, e);
      if a.Some? && 0 <= a.value < MaxWords
      then st.(pc := a.value, lines := st.lines + [Placed(s, a.value, 0)])
      else st.(errors := st.errors + 1)
    case _ =>
      var n := Reserved(st.tab, s);
      var w := if n.Some? then n.value else 0;
      var bad := Bit(n.None?) + Bit(st.pc + w > MaxWords);
      Pass1(st.tab, st.lines + [Placed(s, st.pc % 0x10000, w)],
            if st.pc + w > MaxWords then st.pc else st.pc + w, st.errors + bad)
  }

  function Line1(st: Pass1, l: SrcLine): Pass1 {
    var named := AddLabels(st, l.labels);
    if l.stmt.None? then named else Place(named, l.stmt.value)
  }

  function First(src: seq<SrcLine>): Pass1 {
    if src == [] then Start1 else Line1(First(src[..|src| - 1]), src[|src| - 1])
  }

  // ----- second pass -----

  /** The words written so far, by address, and the errors. */
  datatype Pass2 = Pass2(mem: map<int, Word>, errors: nat)

  function EmitWord(st: Pass2, addr: int, v: Word): Pass2 {
    var a := addr % 0x10000;
    if a in st.mem then st.(errors := st.errors + 1) else st.(mem := st.mem[a := v])
  }

  function EmitDw(st: Pass2, tab: Symbols, addr: int, es: seq<Sum>): Pass2
    decreases |es|
  {
    if es == [] then st else
    var v := WordValue(tab, es[0]);
    var st' := if v.Some? then EmitWord(st, addr, v.value) else st.(errors := st.errors + 1);
    EmitDw(st', tab, addr + 1, es[1..])
  }

  function EmitFill(st: Pass2, addr: int, n: nat, v: Word): Pass2
    decreases n
  {
    if n == 0 then st else EmitFill(EmitWord(st, addr, v), addr + 1, n - 1, v)
  }

  function FillValue(tab: Symbols, args: seq<Sum>): Option<Word> {
    if |args| == 2 then WordValue(tab, args[1]) else Some(0)
  }

  function Line2(st: Pass2, tab: Symbols, p: Placed): Pass2 {
    match p.stmt
    case Org(_) => st
    case EndDir => st
    case Dw(es) => EmitDw(st, tab, p.addr, es)
    case Fill(args) =>
      var n := Reserved(tab, p.stmt);
      if n.None? then st.(errors := st.errors + 1) else
      var v := FillValue(tab, args);
      if v.None? then st.(errors := st.errors + 1) else EmitFill(st, p.addr, n.value, v.value)
    case Code(mn, cond, ops) =>
      match Encode(tab, p.addr, mn, cond, ops)
      case Enc(w) => EmitWord(st, p.addr, w)
      case Rejected => st.(errors := st.errors + 1)
      case Dropped => st
  }

  function Second(st: Pass2, tab: Symbols, lines: seq<Placed>): Pass2 {
    if lines == [] then st
    else Line2(Second(st, tab, lines[..|lines| - 1]), tab, lines[|lines| - 1])
  }

  // ----- output -----

  function Highest(mem: map<int, Word>, below: nat): nat {
    if below == 0 then 0 else if below - 1 in mem then below else Highest(mem, below - 1)
  }

  function Image(mem: map<int, Word>): seq<Word> {
    seq(Highest(mem, MaxWords), i => if i in mem then mem[i] else 0)
  }

  function Assemble(src: seq<SrcLine>): Option<seq<Word>> {
    var p1 := First(src);
    if p1.errors > 0 then None else
    var p2 := Second(Pass2(map[], 0), p1.tab, p1.lines);
    if p2.errors > 0 then None else Some(Image(p2.mem))
  }
}
