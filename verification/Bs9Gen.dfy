/** Code generation for resolved syntax trees: the operations the compiler appends for each construct. */
module Bs9Gen {
  import opened Words
  import opened Bs9Isa
  import opened Bs9Ops
  import opened Bs9Source

  const Push: seq<Instr> := [SubRR(SP, ONE), CpyMR(SP, 0)]

  function Pop(r: Dst): seq<Instr> { [CpyRM(r, SP), AddRR(SP, ONE)] }

  function ReadVar(x: Place): seq<Instr> {
    match x
    case Slot(i) => Const(SlotConst(i)) + [CpyRR(8, FP), SubRR(8, 0), CpyRM(0, 8)]
    case Abs(a) => Const(a) + [CpyRR(8, 0), CpyRM(0, 8)]
  }

  function WriteVar(x: Place): seq<Instr> {
    match x
    case Slot(i) =>
      [CpyRR(2, 0)] + (Const(SlotConst(i)) + [CpyRR(8, FP), SubRR(8, 0), CpyRR(0, 2), CpyMR(8, 0)])
    case Abs(a) => [CpyRR(2, 0)] + (Const(a) + [CpyRR(8, 0), CpyRR(0, 2), CpyMR(8, 0)])
  }

  const StoreThroughStack: seq<Instr> := [CpyRR(2, 0)] + Pop(8) + [CpyRR(0, 2), CpyMR(8, 0)]

  const PopLeft: seq<Instr> := [CpyRR(2, 0)] + Pop(0)

  function BinCode(op: BinOp): seq<Op> {
    match op
    case Plus => [Ins(AddRR(0, 2))]
    case Minus => [Ins(SubRR(0, 2))]
    case BitAnd => [Ins(AndRR(0, 2))]
    case BitOr => [Ins(OrRR(0, 2))]
    case BitXor => [Ins(XorR0(2))]
    case _ => [Ins(SubRR(0, 2))] + [FlagOf(op)]
  }

  predicate IsComparison(op: BinOp) {
    op.EqOp? || op.NeOp? || op.LtOp? || op.LeOp? || op.GtOp? || op.GeOp?
  }

  function FlagOf(op: BinOp): Op {
    match op
    case EqOp => BoolFromFlags(Eq)
    case NeOp => BoolFromFlags(Ne)
    case LtOp => BoolFromFlags(Ls)
    case GeOp => BoolFromFlags(Ge)
    case LeOp => BoolLe
    case _ => BoolGt
  }

  datatype UnaryOp = LoadOp | NegOp | ComplOp | NotOp

  function UnaryCode(op: UnaryOp): seq<Op> {
    match op
    case LoadOp => Plain([CpyRR(8, 0), CpyRM(0, 8)])
    case NegOp => Plain(ThroughR2(0, SubRR(0, 2)))
    case ComplOp => Plain(ThroughR2(0xFFFF, XorR0(2)))
    case NotOp => [BoolNot]
  }

  /** Move R0 to R2, load a constant, combine. */
  function ThroughR2(v: Word, i: Instr): (b: seq<Instr>)
    ensures |b| == 6
  {
    [CpyRR(2, 0)] + (Const(v) + [i])
  }

  const MaxArgs: nat := 4

  /** Pop n arguments into R1..Rn, the last one first. */
  function Pops(n: nat): seq<Instr>
    requires n <= MaxArgs
  {
    if n == 0 then [] else Pop(n) + Pops(n - 1)
  }

  function Count<V>(args: Exprs<V>): nat {
    match args
    case NoArgs => 0
    case Arg(_, rest) => 1 + Count(rest)
  }

  function Capped(n: nat): nat { if n <= MaxArgs then n else MaxArgs }

  function CompExpr(e: Expr<Place>): seq<Op> {
    match e
    case Num(v) => Plain(Const(v))
    case Var(x) => Plain(ReadVar(x))
    case Load(a) => CompExpr(a) + UnaryCode(LoadOp)
    case Store(a, v) => CompExpr(a) + Plain(Push) + CompExpr(v) + Plain(StoreThroughStack)
    case CallFn(f, args) => CompArgs(args) + Plain(Pops(Capped(Count(args)))) + [Call(Func(f))]
    case Pos(e1) => CompExpr(e1)
    case Paren(e1) => CompExpr(e1)
    case Neg(e1) => CompExpr(e1) + UnaryCode(NegOp)
    case Compl(e1) => CompExpr(e1) + UnaryCode(ComplOp)
    case Not(e1) => CompExpr(e1) + UnaryCode(NotOp)
    case Bin(op, l, r) => CompExpr(l) + Plain(Push) + CompExpr(r) + Plain(PopLeft) + BinCode(op)
    case Assign(x, e1) => CompExpr(e1) + Plain(WriteVar(x))
  }

  function CompArgs(args: Exprs<Place>): seq<Op> {
    match args
    case NoArgs => []
    case Arg(e, rest) => CompExpr(e) + Plain(Push) + CompArgs(rest)
  }

  /** How many label numbers a statement uses; `if` takes two even without `else`. */
  function LabelCount<V>(s: Stmt<V>): nat {
    match s
    case If(_, thn) => 2 + LabelCount(thn)
    case IfElse(_, thn, els) => 2 + LabelCount(thn) + LabelCount(els)
    case While(_, body) => 2 + LabelCount(body)
    case Block(ss) => LabelCounts(ss)
    case _ => 0
  }

  function LabelCounts<V>(ss: Stmts<V>): nat {
    match ss
    case Nil => 0
    case Cons(s, rest) => LabelCount(s) + LabelCounts(rest)
  }

  /** Operations of a statement of function fn, numbering labels from n. */
  function CompStmt(s: Stmt<Place>, fn: string, n: nat): seq<Op> {
    match s
    case Return(e) => CompExpr(e) + [Jabs(End(fn))]
    case If(e, thn) =>
      CompExpr(e) + [JabsIfZero(Else(n))] + CompStmt(thn, fn, n + 2) + [Mark(Else(n))]
    case IfElse(e, thn, els) =>
      CompExpr(e) + [JabsIfZero(Else(n))] + CompStmt(thn, fn, n + 2) +
      [Jabs(IfEnd(n + 1))] + [Mark(Else(n))] +
      CompStmt(els, fn, n + 2 + LabelCount(thn)) + [Mark(IfEnd(n + 1))]
    case While(e, body) =>
      [Mark(Top(n))] + (CompExpr(e) + [JabsIfZero(Wend(n + 1))]) + CompStmt(body, fn, n + 2) +
      [Jabs(Top(n))] + [Mark(Wend(n + 1))]
    case Block(ss) => CompStmts(ss, fn, n)
    case Do(e) => CompExpr(e)
    case Empty => [Nop]
    case Decl(_) => []
    case DeclInit(x, e) => CompExpr(e) + Plain(WriteVar(x))
  }

  function CompStmts(ss: Stmts<Place>, fn: string, n: nat): seq<Op> {
    match ss
    case Nil => []
    case Cons(s, rest) => CompStmt(s, fn, n) + CompStmts(rest, fn, n + LabelCount(s))
  }

  function Spill(i: nat): seq<Instr>
    requires i < MaxArgs
  {
    [CpyRR(0, i + 1)] + (Const(i + 1) + [CpyRR(8, FP), SubRR(8, 0), CpyMR(8, 0)])
  }

  /** Spill parameters i, i + 1, .., n - 1. */
  function Spills(i: nat, n: nat): seq<Instr>
    requires i <= n <= MaxArgs
    decreases n - i
  {
    if i == n then [] else Spill(i) + Spills(i + 1, n)
  }

  const SaveLinks: seq<Instr> :=
    [SubRR(SP, ONE), CpyMR(SP, FP), SubRR(SP, ONE), CpyMR(SP, LINK), CpyRR(FP, SP)]

  function Entry(locals: nat): seq<Instr> {
    SaveLinks + (Const(locals % 0x10000) + [SubRR(SP, 0)])
  }

  /** The operations parsing leaves in a function: its body, the return label and the epilogue. */
  function BodyOps(f: Function, n: nat): seq<Op> {
    CompStmts(f.body, f.name, n) + [Mark(End(f.name)), Ret]
  }

  function Prologue(f: Function): seq<Instr>
    requires f.params <= MaxArgs
  {
    Entry(f.locals) + Spills(0, f.params)
  }

  function FuncOps(f: Function, n: nat): seq<Op>
    requires f.params <= MaxArgs
  {
    [Mark(Func(f.name))] + Plain(Prologue(f)) + BodyOps(f, n)
  }

  function StartOps(stack: Word): seq<Op> {
    Plain(Const(stack) + [CpyRR(SP, 0)]) + [Call(Func("main")), Halt]
  }
}
