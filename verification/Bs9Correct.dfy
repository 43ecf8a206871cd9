/** Compiler correctness: a successful source run is matched by a machine run. */
module Bs9Correct {
  import opened Options
  import opened Words
  import opened Bs9Isa
  import opened Bs9Ops
  import opened Bs9Source
  import opened Bs9Gen
  import opened Bs9Exec

  /** Slots lie in the frame and calls pass at most four arguments. */
  predicate FitsExpr(e: Expr<Place>, n: nat) {
    match e
    case Num(_) => true
    case Var(x) => FitsPlace(x, n)
    case Load(a) => FitsExpr(a, n)
    case Store(a, v) => FitsExpr(a, n) && FitsExpr(v, n)
    case CallFn(_, args) => FitsArgs(args, n) && Count(args) <= MaxArgs
    case Pos(e1) => FitsExpr(e1, n)
    case Paren(e1) => FitsExpr(e1, n)
    case Neg(e1) => FitsExpr(e1, n)
    case Compl(e1) => FitsExpr(e1, n)
    case Not(e1) => FitsExpr(e1, n)
    case Bin(_, l, r) => FitsExpr(l, n) && FitsExpr(r, n)
    case Assign(x, e1) => FitsPlace(x, n) && FitsExpr(e1, n)
  }

  predicate FitsArgs(args: Exprs<Place>, n: nat) {
    match args
    case NoArgs => true
    case Arg(e, rest) => FitsExpr(e, n) && FitsArgs(rest, n)
  }

  predicate FitsPlace(x: Place, n: nat) { x.Slot? ==> x.i < n }

  predicate FitsStmt(s: Stmt<Place>, n: nat) {
    match s
    case Return(e) => FitsExpr(e, n)
    case If(e, thn) => FitsExpr(e, n) && FitsStmt(thn, n)
    case IfElse(e, thn, els) => FitsExpr(e, n) && FitsStmt(thn, n) && FitsStmt(els, n)
    case While(e, body) => FitsExpr(e, n) && FitsStmt(body, n)
    case Block(ss) => FitsStmts(ss, n)
    case Do(e) => FitsExpr(e, n)
    case Empty => true
    case Decl(_) => true
    case DeclInit(x, e) => FitsPlace(x, n) && FitsExpr(e, n)
  }

  predicate FitsStmts(ss: Stmts<Place>, n: nat) {
    match ss
    case Nil => true
    case Cons(s, rest) => FitsStmt(s, n) && FitsStmts(rest, n)
  }

  predicate FitsFunction(f: Function) {
    f.params <= MaxArgs && f.params <= f.locals <= 0xFFFF && FitsStmts(f.body, f.locals)
  }

  ghost predicate Compiled(code: seq<Instr>, tab: Table, f: Function)
    requires f.params <= MaxArgs
  {
    && Func(f.name) in tab && End(f.name) in tab
    && exists n: nat :: CodeAt(code, tab[Func(f.name)], FuncOps(f, n), tab)
  }

  /** Every function the source run can call lies compiled in the code; the stack area is above the code. */
  ghost predicate Linked(c: Cfg, code: seq<Instr>, tab: Table) {
    && |code| == c.codeLen < c.lo <= c.top < 0x10000
    && c.mode.Emitted?
    && forall name :: c.Find(name).Some? ==>
         var f := c.Find(name).value;
         && f.name == name && FitsFunction(f) && Compiled(code, tab, f)
         && name in c.mode.ends && c.mode.ends[name] == tab[End(name)]
  }

  /** The machine's frame and memory represent the source environment; room stack words are free. */
  ghost predicate Rep(c: Cfg, n: nat, env: Env, room: nat, s: State) {
    var fp, sp := s.regs[FP], s.regs[SP];
    && c.lo + room == sp <= fp - n && fp <= c.top
    && (forall i :: i in env.locals ==> i < n && s.mem[fp - 1 - i] == env.locals[i])
    && (forall a: Word :: !(c.lo <= a < c.top) ==> s.mem[a] == env.mem[a])
  }

  /** Stack words from sp upward are the same, but for the n local slots of the frame at fp. */
  ghost predicate Above(c: Cfg, n: nat, fp: Word, sp: Word, s: State, t: State) {
    forall a: Word :: sp <= a < c.top && !(fp - n <= a < fp) ==> t.mem[a] == s.mem[a]
  }

  lemma AboveTrans(c: Cfg, n: nat, fp: Word, sp: Word, sp': Word, s: State, t: State, u: State)
    requires Above(c, n, fp, sp, s, t) && Above(c, n, fp, sp', t, u) && sp' <= sp
    ensures Above(c, n, fp, sp, s, u)
  {
  }

  /** The frame registers are back and the stack above the pointer is untouched, but for the n local slots. */
  ghost predicate Kept(c: Cfg, n: nat, s: State, t: State) {
    var fp, sp := s.regs[FP], s.regs[SP];
    && t.regs[FP] == fp && t.regs[SP] == sp
    && Above(c, n, fp, sp, s, t)
  }

  lemma ReadVarOk(c: Cfg, code: seq<Instr>, tab: Table, n: nat, x: Place, env: Env, room: nat,
                  fuel: nat, s0: State, s: State) returns (t: State)
    requires Linked(c, code, tab) && Came(code, s0, s) && Rep(c, n, env, room, s)
    requires At(code, s.pc, ReadVar(x)) && FitsPlace(x, n) && n <= 0xFFFF
    requires Eval(c, Var(x), env, room, fuel).Val?
    ensures Came(code, s0, t) && t.pc == s.pc + |ReadVar(x)| && Scratch(s, t)
    ensures Eval(c, Var(x), env, room, fuel) == Val(Some(t.regs[0]), env)
  {
    hide ReadVar;
    t := ReadVarRuns(code, s0, s, x);
  }

  /** Storing R0 in a variable; R0 keeps the value. */
  lemma WriteVarOk(c: Cfg, code: seq<Instr>, tab: Table, n: nat, x: Place, env: Env, room: nat,
                   s0: State, s: State) returns (t: State)
    requires Linked(c, code, tab) && Came(code, s0, s) && Rep(c, n, env, room, s)
    requires At(code, s.pc, WriteVar(x)) && FitsPlace(x, n) && n <= 0xFFFF
    requires SetVar(c, x, Val(Some(s.regs[0]), env)).Val?
    ensures Came(code, s0, t) && t.pc == s.pc + |WriteVar(x)| && t.regs[0] == s.regs[0]
    ensures Kept(c, n, s, t)
    ensures Rep(c, n, SetVar(c, x, Val(Some(s.regs[0]), env)).env, room, t)
  {
    hide WriteVar;
    t := WriteVarRuns(code, s0, s, x);
  }

  ghost predicate Ready(c: Cfg, code: seq<Instr>, tab: Table, n: nat, env: Env, room: nat,
                        s0: State, s: State, ops: seq<Op>) {
    && Linked(c, code, tab) && Came(code, s0, s) && n <= 0xFFFF
    && Rep(c, n, env, room, s) && CodeAt(code, s.pc, ops, tab)
  }

  ghost predicate After(c: Cfg, code: seq<Instr>, n: nat, env: Env, room: nat,
                        s0: State, s: State, ops: seq<Op>, t: State) {
    && Came(code, s0, t) && t.pc == s.pc + Size(ops)
    && Kept(c, n, s, t) && Rep(c, n, env, room, t)
  }

  ghost predicate Holds(v: Option<Word>, s: State) { v.Some? ==> s.regs[0] == v.value }

  /** One operand saved on the stack, the other in R0. */
  ghost predicate Saved(c: Cfg, n: nat, x: Word, y: Word, s: State, t: State) {
    var fp, sp := s.regs[FP], s.regs[SP];
    && sp > 0 && t.regs[FP] == fp && t.regs[SP] == sp - 1
    && t.regs[0] == y && t.mem[sp - 1] == x
    && Above(c, n, fp, sp, s, t)
  }

  lemma PushStep(c: Cfg, code: seq<Instr>, tab: Table, n: nat, env: Env, room: nat,
                 s0: State, s: State) returns (t: State)
    requires Ready(c, code, tab, n, env, room, s0, s, Plain(Push)) && room > 0
    ensures Came(code, s0, t) && t.pc == s.pc + 2
    ensures Saved(c, n, s.regs[0], s.regs[0], s, t) && Rep(c, n, env, room - 1, t)
  {
    hide Plain, Push, CodeAt;
    PlainAt(code, s.pc, Push, tab);
    t := PushOk(code, s0, s);
  }

  /** e1; push; e2, as the two operands of e */
  lemma PairOk(c: Cfg, code: seq<Instr>, tab: Table, n: nat, e: Expr<Place>, e1: Expr<Place>, e2: Expr<Place>,
               env: Env, room: nat, fuel: nat, s0: State, s: State) returns (t: State)
    requires Ready(c, code, tab, n, env, room, s0, s, CompExpr(e1) + Plain(Push) + CompExpr(e2))
    requires FitsExpr(e1, n) && FitsExpr(e2, n) && e1 < e && e2 < e
    requires var p := Use(Eval(c, e1, env, room, fuel));
             p.Val? && room > 0 && Use(Eval(c, e2, p.env, room - 1, fuel)).Val?
    ensures var p := Use(Eval(c, e1, env, room, fuel));
            var q := Use(Eval(c, e2, p.env, room - 1, fuel));
            && Came(code, s0, t) && t.pc == s.pc + Size(CompExpr(e1) + Plain(Push) + CompExpr(e2))
            && Saved(c, n, p.v.value, q.v.value, s, t) && Rep(c, n, q.env, room - 1, t)
    decreases fuel, e, 0
  {
    hide CodeAt, Linked, CompExpr, Came, Push, Plain, Eval, FitsExpr, Above, Rep, Saved, Kept;
    var p := Use(Eval(c, e1, env, room, fuel));
    Split(code, s.pc, CompExpr(e1) + Plain(Push), CompExpr(e2), tab);
    Split(code, s.pc, CompExpr(e1), Plain(Push), tab);
    PushSize();
    var t1 := ExprOk(c, code, tab, n, e1, env, room, fuel, s0, s);
    var t2 := PushStep(c, code, tab, n, p.env, room, s0, t1);
    t := ExprOk(c, code, tab, n, e2, p.env, room - 1, fuel, s0, t2);
    SavedThen(c, n, env, room, s, t1, t2, t);
  }

  /** An operand evaluated and pushed stays on the stack while the other is evaluated. */
  lemma SavedThen(c: Cfg, n: nat, env: Env, room: nat, s: State, t1: State, t2: State, t: State)
    requires Rep(c, n, env, room, s) && Kept(c, n, s, t1) && Saved(c, n, t1.regs[0], t1.regs[0], t1, t2) && Kept(c, n, t2, t)
    ensures Saved(c, n, t1.regs[0], t.regs[0], s, t)
  {
    var fp, sp := s.regs[FP], s.regs[SP];
    assert Above(c, n, fp, sp, s, t1) && Above(c, n, fp, sp, t1, t2) && Above(c, n, fp, sp - 1, t2, t);
  }

  lemma PushSize()
    ensures Size(Plain(Push)) == 2
  {
  }

  lemma StackAbove(c: Cfg, code: seq<Instr>, tab: Table)
    requires Linked(c, code, tab)
    ensures |code| <= c.lo
  {
  }

  lemma StoreTail(c: Cfg, code: seq<Instr>, tab: Table, s0: State, s: State) returns (t: State)
    requires Linked(c, code, tab) && Came(code, s0, s) && c.lo <= s.regs[SP] < 0xFFFF
    requires CodeAt(code, s.pc, Plain(StoreThroughStack), tab)
    requires s.mem[s.regs[SP]] >= |code|
    ensures Came(code, s0, t) && t.pc == s.pc + 5
    ensures t.regs[0] == s.regs[0] && t.regs[FP] == s.regs[FP] && t.regs[SP] == s.regs[SP] + 1
    ensures t.mem == s.mem[s.mem[s.regs[SP]] := s.regs[0]]
  {
    hide CodeAt, Plain, Bits, Linked;
    StackAbove(c, code, tab);
    PlainAt(code, s.pc, StoreThroughStack, tab);
    t := StepOk(code, s0, s, CpyRR(2, 0));
    t := PopOk(code, s0, t, 8);
    t := StepOk(code, s0, t, CpyRR(0, 2));
    t := StepOk(code, s0, t, CpyMR(8, 0));
  }

  lemma PopLeftOk(c: Cfg, code: seq<Instr>, tab: Table, s0: State, s: State) returns (t: State)
    requires Linked(c, code, tab) && Came(code, s0, s) && c.lo <= s.regs[SP] < 0xFFFF
    requires CodeAt(code, s.pc, Plain(PopLeft), tab)
    ensures Came(code, s0, t) && t.pc == s.pc + 3 && t.mem == s.mem
    ensures t.regs == s.regs[2 := s.regs[0]][0 := s.mem[s.regs[SP]]][SP := s.regs[SP] + 1]
  {
    hide CodeAt, Plain, Bits;
    PlainAt(code, s.pc, PopLeft, tab);
    t := StepOk(code, s0, s, CpyRR(2, 0));
    t := PopOk(code, s0, t, 0);
  }

  /** The operator code combines R0 (left) with R2 (right). */
  lemma BinCodeOk(code: seq<Instr>, tab: Table, op: BinOp, s0: State, s: State) returns (t: State)
    requires Came(code, s0, s) && CodeAt(code, s.pc, BinCode(op), tab)
    ensures Came(code, s0, t) && t.pc == s.pc + Size(BinCode(op)) && Scratch(s, t)
    ensures t.regs[0] == Apply(op, s.regs[0], s.regs[2])
  {
    hide Bits;
    match op
    case Plus => One(code, s.pc, Ins(AddRR(0, 2)), tab); t := StepOk(code, s0, s, AddRR(0, 2));
    case Minus => One(code, s.pc, Ins(SubRR(0, 2)), tab); t := StepOk(code, s0, s, SubRR(0, 2));
    case BitAnd => One(code, s.pc, Ins(AndRR(0, 2)), tab); t := StepOk(code, s0, s, AndRR(0, 2));
    case BitOr => One(code, s.pc, Ins(OrRR(0, 2)), tab); t := StepOk(code, s0, s, OrRR(0, 2));
    case BitXor => One(code, s.pc, Ins(XorR0(2)), tab); t := StepOk(code, s0, s, XorR0(2));
    case _ => t := CompareOk(code, tab, op, s0, s);
  }

  lemma CompareOk(code: seq<Instr>, tab: Table, op: BinOp, s0: State, s: State) returns (t: State)
    requires Came(code, s0, s) && CodeAt(code, s.pc, BinCode(op), tab) && IsComparison(op)
    ensures Came(code, s0, t) && t.pc == s.pc + Size(BinCode(op)) && Scratch(s, t)
    ensures t.regs[0] == Apply(op, s.regs[0], s.regs[2])
  {
    hide CodeAt, OpAt, Bits, Came, BinCode;
    CompareCode(code, s.pc, tab, op);
    t := StepOk(code, s0, s, SubRR(0, 2));
    t := FlagOpOk(code, tab, FlagOf(op), s0, t);
  }

  lemma {:induction false} CompareCode(code: seq<Instr>, pos: nat, tab: Table, op: BinOp)
    requires CodeAt(code, pos, BinCode(op), tab) && IsComparison(op)
    ensures pos < |code| && code[pos] == SubRR(0, 2) && OpAt(code, pos + 1, FlagOf(op), tab)
    ensures Size(BinCode(op)) == 1 + OpSize(FlagOf(op))
  {
    hide CodeAt;
    Split(code, pos, [Ins(SubRR(0, 2))], [FlagOf(op)], tab);
    One(code, pos, Ins(SubRR(0, 2)), tab);
    One(code, pos + 1, FlagOf(op), tab);
  }

  function FlagValue(flag: Op, s: State): Word
    requires flag.BoolFromFlags? || flag.BoolLe? || flag.BoolGt?
  {
    match flag
    case BoolFromFlags(c) => Truth(s.Holds(if c.Eq? || c.Ne? || c.Ge? then c else Ls))
    case BoolLe => Truth(s.s || s.z)
    case BoolGt => Truth(!s.s && !s.z)
  }

  lemma FlagOpOk(code: seq<Instr>, tab: Table, flag: Op, s0: State, s: State) returns (t: State)
    requires Came(code, s0, s) && OpAt(code, s.pc, flag, tab)
    requires flag.BoolFromFlags? || flag.BoolLe? || flag.BoolGt?
    ensures Came(code, s0, t) && t.pc == s.pc + OpSize(flag) && Scratch(s, t)
    ensures t.regs[0] == FlagValue(flag, s)
  {
    hide At, OnFlag, Either, ConstSkip;
    match flag
    case BoolFromFlags(c) => t := FlagOk(code, s0, s, if c.Eq? || c.Ne? || c.Ge? then c else Ls, 0, 1);
    case BoolLe => t := BoolLeOk(code, s0, s);
    case BoolGt => t := BoolGtOk(code, s0, s);
  }

  lemma StoreSize()
    ensures Size(Plain(StoreThroughStack)) == 5 && Size(Plain(PopLeft)) == 3
  {
  }

  /** Dropping the saved operand gives back its stack word. */
  lemma Dropped(c: Cfg, n: nat, env: Env, room: nat, x: Word, y: Word, s: State, t: State, u: State)
    requires room > 0 && c.top <= 0xFFFF && s.regs[SP] <= s.regs[FP] - n
    requires Saved(c, n, x, y, s, t) && Rep(c, n, env, room - 1, t)
    requires u.regs[FP] == t.regs[FP] && u.regs[SP] == t.regs[SP] + 1 && u.mem == t.mem
    ensures Kept(c, n, s, u) && Rep(c, n, env, room, u)
  {
  }

  /** A store outside stack and code. */
  lemma StoredAt(c: Cfg, n: nat, env: Env, room: nat, a: Word, v: Word, s: State, t: State, u: State)
    requires Kept(c, n, s, t) && Rep(c, n, env, room, t) && c.Data(a)
    requires u.regs[FP] == t.regs[FP] && u.regs[SP] == t.regs[SP] && u.mem == t.mem[a := v]
    ensures Kept(c, n, s, u) && Rep(c, n, env.(mem := env.mem[a := v]), room, u)
  {
  }

  lemma StoreParts(c: Cfg, n: nat, e: Expr<Place>, env: Env, room: nat, fuel: nat)
    requires e.Store? && FitsExpr(e, n) && Eval(c, e, env, room, fuel).Val?
    ensures FitsExpr(e.a, n) && FitsExpr(e.e, n) && e.a < e && e.e < e && room > 0
    ensures CompExpr(e) == CompExpr(e.a) + Plain(Push) + CompExpr(e.e) + Plain(StoreThroughStack)
    ensures var p := Use(Eval(c, e.a, env, room, fuel));
            && p.Val?
            && var q := Use(Eval(c, e.e, p.env, room - 1, fuel));
            && q.Val? && c.Data(p.v.value)
            && Eval(c, e, env, room, fuel) == Val(q.v, q.env.(mem := q.env.mem[p.v.value := q.v.value]))
  {
  }

  lemma StoreOk(c: Cfg, code: seq<Instr>, tab: Table, n: nat, e: Expr<Place>, env: Env, room: nat,
                fuel: nat, s0: State, s: State) returns (t: State)
    requires Ready(c, code, tab, n, env, room, s0, s, CompExpr(e)) && FitsExpr(e, n) && e.Store?
    requires Eval(c, e, env, room, fuel).Val?
    ensures After(c, code, n, Eval(c, e, env, room, fuel).env, room, s0, s, CompExpr(e), t)
    ensures Holds(Eval(c, e, env, room, fuel).v, t)
    decreases fuel, e, 1
  {
    hide CodeAt, Came, Push, StoreThroughStack, CompExpr, FitsExpr, Eval, Above;
    StoreParts(c, n, e, env, room, fuel);
    var pair := CompExpr(e.a) + Plain(Push) + CompExpr(e.e);
    Split(code, s.pc, pair, Plain(StoreThroughStack), tab);
    StoreSize();
    var p := Use(Eval(c, e.a, env, room, fuel));
    var q := Use(Eval(c, e.e, p.env, room - 1, fuel));
    var t1 := PairOk(c, code, tab, n, e, e.a, e.e, env, room, fuel, s0, s);
    t := StoreTail(c, code, tab, s0, t1);
    var u := t1.(regs := t.regs);
    Dropped(c, n, q.env, room, p.v.value, q.v.value, s, t1, u);
    StoredAt(c, n, q.env, room, p.v.value, q.v.value, s, u, t);
  }

  lemma BinParts(c: Cfg, n: nat, e: Expr<Place>, env: Env, room: nat, fuel: nat)
    requires e.Bin? && FitsExpr(e, n) && Eval(c, e, env, room, fuel).Val?
    ensures FitsExpr(e.l, n) && FitsExpr(e.r, n) && e.l < e && e.r < e && room > 0
    ensures CompExpr(e) == CompExpr(e.l) + Plain(Push) + CompExpr(e.r) + Plain(PopLeft) + BinCode(e.op)
    ensures var p := Use(Eval(c, e.l, env, room, fuel));
            && p.Val?
            && var q := Use(Eval(c, e.r, p.env, room - 1, fuel));
            && q.Val?
            && Eval(c, e, env, room, fuel) == Val(Some(Apply(e.op, p.v.value, q.v.value)), q.env)
  {
  }

  lemma BinOk(c: Cfg, code: seq<Instr>, tab: Table, n: nat, e: Expr<Place>, env: Env, room: nat,
              fuel: nat, s0: State, s: State) returns (t: State)
    requires Ready(c, code, tab, n, env, room, s0, s, CompExpr(e)) && FitsExpr(e, n) && e.Bin?
    requires Eval(c, e, env, room, fuel).Val?
    ensures After(c, code, n, Eval(c, e, env, room, fuel).env, room, s0, s, CompExpr(e), t)
    ensures Holds(Eval(c, e, env, room, fuel).v, t)
    decreases fuel, e, 1
  {
    hide CodeAt, Came, Push, PopLeft, BinCode, Apply, CompExpr, FitsExpr, Eval, Above;
    BinParts(c, n, e, env, room, fuel);
    var pair := CompExpr(e.l) + Plain(Push) + CompExpr(e.r);
    Split(code, s.pc, pair + Plain(PopLeft), BinCode(e.op), tab);
    Split(code, s.pc, pair, Plain(PopLeft), tab);
    StoreSize();
    var p := Use(Eval(c, e.l, env, room, fuel));
    var q := Use(Eval(c, e.r, p.env, room - 1, fuel));
    var t1 := PairOk(c, code, tab, n, e, e.l, e.r, env, room, fuel, s0, s);
    var t2 := PopLeftOk(c, code, tab, s0, t1);
    t := BinCodeOk(code, tab, e.op, s0, t2);
    Dropped(c, n, q.env, room, p.v.value, q.v.value, s, t1, t);
  }

  function UnaryValue(op: UnaryOp, s: State): Word {
    match op
    case LoadOp => s.mem[s.regs[0]]
    case NegOp => Sub(0, s.regs[0])
    case ComplOp => 0xFFFF - s.regs[0]
    case NotOp => Truth(s.regs[0] == 0)
  }

  lemma UnaryTail(c: Cfg, code: seq<Instr>, tab: Table, op: UnaryOp, s0: State, s: State) returns (t: State)
    requires Linked(c, code, tab) && Came(code, s0, s) && CodeAt(code, s.pc, UnaryCode(op), tab)
    requires op.LoadOp? ==> c.Data(s.regs[0])
    ensures Came(code, s0, t) && t.pc == s.pc + Size(UnaryCode(op)) && Scratch(s, t)
    ensures t.regs[0] == UnaryValue(op, s)
  {
    hide CodeAt, Bits, At, Either;
    match op
    case LoadOp => t := LoadTail(code, tab, s0, s);
    case NegOp =>
      PlainAt(code, s.pc, ThroughR2(0, SubRR(0, 2)), tab);
      t := ThroughR2Ok(code, 0, SubRR(0, 2), s0, s);
    case ComplOp =>
      PlainAt(code, s.pc, ThroughR2(0xFFFF, XorR0(2)), tab);
      t := ThroughR2Ok(code, 0xFFFF, XorR0(2), s0, s);
      XorIsComplement(s.regs[0]);
    case NotOp =>
      One(code, s.pc, BoolNot, tab);
      t := BoolNotOk(code, s0, s);
  }

  lemma LoadTail(code: seq<Instr>, tab: Table, s0: State, s: State) returns (t: State)
    requires Came(code, s0, s) && CodeAt(code, s.pc, UnaryCode(LoadOp), tab) && s.regs[0] >= |code|
    ensures Came(code, s0, t) && t.pc == s.pc + 2 && Scratch(s, t) && t.regs[0] == s.mem[s.regs[0]]
  {
    hide CodeAt;
    PlainAt(code, s.pc, [CpyRR(8, 0), CpyRM(0, 8)], tab);
    t := StepOk(code, s0, s, CpyRR(8, 0));
    t := StepOk(code, s0, t, CpyRM(0, 8));
  }

  lemma ThroughR2Ok(code: seq<Instr>, v: Word, i: Instr, s0: State, s: State) returns (t: State)
    requires Came(code, s0, s) && At(code, s.pc, ThroughR2(v, i))
    requires i == SubRR(0, 2) || i == XorR0(2)
    ensures Came(code, s0, t) && t.pc == s.pc + 6 && Scratch(s, t)
    ensures t.regs[0] == if i.SubRR? then Sub(v, s.regs[0]) else Bits(XorF, v, s.regs[0])
  {
    hide Const, Bits, At;
    AtHead(code, s.pc, CpyRR(2, 0), Const(v) + [i]);
    AtSlice(code, s.pc + 1, Const(v), [i]);
    AtHead(code, s.pc + 5, i, []);
    t := StepOk(code, s0, s, CpyRR(2, 0));
    t := ConstOk(code, s0, t, v);
    t := StepOk(code, s0, t, i);
  }

  predicate IsUnary(op: UnaryOp, e: Expr<Place>, e1: Expr<Place>) {
    match op
    case LoadOp => e == Load(e1)
    case NegOp => e == Neg(e1)
    case ComplOp => e == Compl(e1)
    case NotOp => e == Not(e1)
  }

  lemma {:induction false} UnaryParts(c: Cfg, n: nat, e: Expr<Place>, e1: Expr<Place>, op: UnaryOp, env: Env, room: nat, fuel: nat,
                   t: State)
    requires IsUnary(op, e, e1) && FitsExpr(e, n) && Eval(c, e, env, room, fuel).Val?
    ensures e1 < e && FitsExpr(e1, n) && CompExpr(e) == CompExpr(e1) + UnaryCode(op)
    ensures var r := Eval(c, e1, env, room, fuel);
            && r.Val? && r.v.Some? && (op.LoadOp? ==> c.Data(r.v.value))
            && Eval(c, e, env, room, fuel).env == r.env
            && (t.regs[0] == r.v.value && (op.LoadOp? ==> t.mem[r.v.value] == r.env.mem[r.v.value])
                ==> Eval(c, e, env, room, fuel).v == Some(UnaryValue(op, t)))
  {
    hide UnaryCode, Bits, Sub;
    match op {
      case LoadOp =>
      case NegOp =>
      case ComplOp =>
      case NotOp =>
    }
  }

  lemma UnaryOk(c: Cfg, code: seq<Instr>, tab: Table, n: nat, e: Expr<Place>, e1: Expr<Place>, op: UnaryOp,
                env: Env, room: nat, fuel: nat, s0: State, s: State) returns (t: State)
    requires Ready(c, code, tab, n, env, room, s0, s, CompExpr(e)) && FitsExpr(e, n)
    requires Eval(c, e, env, room, fuel).Val? && IsUnary(op, e, e1)
    ensures After(c, code, n, Eval(c, e, env, room, fuel).env, room, s0, s, CompExpr(e), t)
    ensures Holds(Eval(c, e, env, room, fuel).v, t)
    decreases fuel, e, 1
  {
    hide CodeAt, Came, UnaryCode, Linked, Above, Eval, CompExpr, FitsExpr, IsUnary;
    UnaryParts(c, n, e, e1, op, env, room, fuel, s);
    Split(code, s.pc, CompExpr(e1), UnaryCode(op), tab);
    var t1 := ExprOk(c, code, tab, n, e1, env, room, fuel, s0, s);
    UnaryParts(c, n, e, e1, op, env, room, fuel, t1);
    t := UnaryTail(c, code, tab, op, s0, t1);
    AboveScratch(c, n, s.regs[FP], s.regs[SP], s, t1, t);
  }

  lemma AboveScratch(c: Cfg, n: nat, fp: Word, sp: Word, s: State, t: State, u: State)
    requires Above(c, n, fp, sp, s, t) && t.mem == u.mem
    ensures Above(c, n, fp, sp, s, u)
  {
  }

  lemma AssignOk(c: Cfg, code: seq<Instr>, tab: Table, n: nat, e: Expr<Place>, env: Env, room: nat,
                 fuel: nat, s0: State, s: State) returns (t: State)
    requires Ready(c, code, tab, n, env, room, s0, s, CompExpr(e)) && FitsExpr(e, n) && e.Assign?
    requires Eval(c, e, env, room, fuel).Val?
    ensures After(c, code, n, Eval(c, e, env, room, fuel).env, room, s0, s, CompExpr(e), t)
    ensures Holds(Eval(c, e, env, room, fuel).v, t)
    decreases fuel, e, 1
  {
    hide CodeAt, Came, Plain, WriteVar, At;
    Split(code, s.pc, CompExpr(e.e), Plain(WriteVar(e.x)), tab);
    var r := Use(Eval(c, e.e, env, room, fuel));
    var t1 := ExprOk(c, code, tab, n, e.e, env, room, fuel, s0, s);
    PlainAt(code, t1.pc, WriteVar(e.x), tab);
    t := WriteVarOk(c, code, tab, n, e.x, r.env, room, s0, t1);
  }

  /** Arguments end up on the stack, the first one highest, the pointer moved down by one word each. */
  lemma ArgsOk(c: Cfg, code: seq<Instr>, tab: Table, n: nat, args: Exprs<Place>, env: Env, room: nat,
               fuel: nat, s0: State, s: State) returns (t: State)
    requires Ready(c, code, tab, n, env, room, s0, s, CompArgs(args)) && FitsArgs(args, n)
    requires EvalArgs(c, args, env, room, fuel).Vals?
    ensures var k := Count(args);
            && Came(code, s0, t) && t.pc == s.pc + Size(CompArgs(args)) && k <= room
            && t.regs[FP] == s.regs[FP] && t.regs[SP] == s.regs[SP] - k
            && Rep(c, n, EvalArgs(c, args, env, room, fuel).env, room - k, t)
            && Above(c, n, s.regs[FP], s.regs[SP], s, t)
            && Stacked(EvalArgs(c, args, env, room, fuel).vs, s.regs[SP], t) && |EvalArgs(c, args, env, room, fuel).vs| == k
    decreases fuel, args, 1
  {
    hide CodeAt, Came, Push, Plain, Linked, Above, Rep, Eval, CompExpr, FitsExpr;
    match args
    case NoArgs => t := s; AboveScratch(c, n, s.regs[FP], s.regs[SP], s, s, s);
    case Arg(e, rest) =>
      Split(code, s.pc, CompExpr(e) + Plain(Push), CompArgs(rest), tab);
      Split(code, s.pc, CompExpr(e), Plain(Push), tab);
      PushSize();
      var p := Use(Eval(c, e, env, room, fuel));
      var t1 := ExprOk(c, code, tab, n, e, env, room, fuel, s0, s);
      var t2 := PushStep(c, code, tab, n, p.env, room, s0, t1);
      t := ArgsOk(c, code, tab, n, rest, p.env, room - 1, fuel, s0, t2);
      AboveTrans(c, n, s.regs[FP], s.regs[SP], s.regs[SP], s, t1, t2);
      AboveTrans(c, n, s.regs[FP], s.regs[SP], t2.regs[SP], s, t2, t);
      StackedFirst(c, n, p.v.value, EvalArgs(c, rest, p.env, room - 1, fuel).vs, env, room, s, t2, t);
  }

  /** The words lie below an address, the first one highest. */
  predicate Stacked(vs: seq<Word>, sp: Word, t: State) {
    |vs| <= sp && forall i :: 0 <= i < |vs| ==> t.mem[sp - 1 - i] == vs[i]
  }

  /** The word pushed first stays while the others are pushed. */
  lemma StackedFirst(c: Cfg, n: nat, v: Word, vs: seq<Word>, env: Env, room: nat, s: State, t: State, u: State)
    requires Rep(c, n, env, room, s) && s.regs[SP] > 0 && t.mem[s.regs[SP] - 1] == v
    requires Above(c, n, s.regs[FP], s.regs[SP] - 1, t, u) && Stacked(vs, s.regs[SP] - 1, u)
    ensures Stacked([v] + vs, s.regs[SP], u)
  {
  }

  lemma PopsOk(code: seq<Instr>, k: nat, s0: State, s: State) returns (t: State)
    requires Came(code, s0, s) && k <= MaxArgs && At(code, s.pc, Pops(k))
    requires |code| <= s.regs[SP] && s.regs[SP] + k <= 0xFFFF
    ensures Came(code, s0, t) && t.pc == s.pc + |Pops(k)|
    ensures t.regs[FP] == s.regs[FP] && t.regs[SP] == s.regs[SP] + k && t.mem == s.mem
    ensures forall r :: 1 <= r <= MaxArgs ==> t.regs[r] == if r <= k then s.mem[s.regs[SP] + k - r] else s.regs[r]
    decreases k
  {
    hide At, Came;
    if k == 0 {
      t := s;
    } else {
      AtSlice(code, s.pc, Pop(k), Pops(k - 1));
      t := PopOk(code, s0, s, k);
      t := PopsOk(code, k - 1, s0, t);
    }
  }

  /** The expression compiler is correct: at the end of its code R0 holds the value. */
  lemma ExprOk(c: Cfg, code: seq<Instr>, tab: Table, n: nat, e: Expr<Place>, env: Env, room: nat,
               fuel: nat, s0: State, s: State) returns (t: State)
    requires Ready(c, code, tab, n, env, room, s0, s, CompExpr(e)) && FitsExpr(e, n)
    requires Eval(c, e, env, room, fuel).Val?
    ensures After(c, code, n, Eval(c, e, env, room, fuel).env, room, s0, s, CompExpr(e), t)
    ensures Holds(Eval(c, e, env, room, fuel).v, t)
    decreases fuel, e, 2
  {
    hide CodeAt, Came, Plain, At, ReadVar, WriteVar, Const, BinCode, Linked, Rep, Kept;
    match e
    case Num(v) =>
      t := NumOk(c, code, tab, n, e, env, room, fuel, s0, s);
    case Var(x) =>
      t := VarOk(c, code, tab, n, e, env, room, fuel, s0, s);
    case Pos(e1) =>
      t := ExprOk(c, code, tab, n, e1, env, room, fuel, s0, s);
    case Paren(e1) =>
      t := ExprOk(c, code, tab, n, e1, env, room, fuel, s0, s);
    case Load(e1) => t := UnaryOk(c, code, tab, n, e, e1, LoadOp, env, room, fuel, s0, s);
    case Neg(e1) => t := UnaryOk(c, code, tab, n, e, e1, NegOp, env, room, fuel, s0, s);
    case Compl(e1) => t := UnaryOk(c, code, tab, n, e, e1, ComplOp, env, room, fuel, s0, s);
    case Not(e1) => t := UnaryOk(c, code, tab, n, e, e1, NotOp, env, room, fuel, s0, s);
    case Store(_, _) => t := StoreOk(c, code, tab, n, e, env, room, fuel, s0, s);
    case Bin(_, _, _) => t := BinOk(c, code, tab, n, e, env, room, fuel, s0, s);
    case Assign(_, _) => t := AssignOk(c, code, tab, n, e, env, room, fuel, s0, s);
    case CallFn(_, _) => t := CallOk(c, code, tab, n, e, env, room, fuel, s0, s);
  }

  lemma NumOk(c: Cfg, code: seq<Instr>, tab: Table, n: nat, e: Expr<Place>, env: Env, room: nat,
              fuel: nat, s0: State, s: State) returns (t: State)
    requires Ready(c, code, tab, n, env, room, s0, s, CompExpr(e)) && e.Num?
    ensures After(c, code, n, env, room, s0, s, CompExpr(e), t) && t.regs[0] == e.v
  {
    hide CodeAt, Plain, At;
    PlainAt(code, s.pc, Const(e.v), tab);
    t := ConstOk(code, s0, s, e.v);
  }

  lemma VarOk(c: Cfg, code: seq<Instr>, tab: Table, n: nat, e: Expr<Place>, env: Env, room: nat,
              fuel: nat, s0: State, s: State) returns (t: State)
    requires Ready(c, code, tab, n, env, room, s0, s, CompExpr(e)) && FitsExpr(e, n) && e.Var?
    requires Eval(c, e, env, room, fuel).Val?
    ensures After(c, code, n, env, room, s0, s, CompExpr(e), t)
    ensures Eval(c, e, env, room, fuel) == Val(Some(t.regs[0]), env)
  {
    hide CodeAt, Came, Plain, At, ReadVar, Linked;
    PlainAt(code, s.pc, ReadVar(e.x), tab);
    t := ReadVarOk(c, code, tab, n, e.x, env, room, fuel, s0, s);
  }

  lemma {:induction false} CallParts(c: Cfg, n: nat, e: Expr<Place>, env: Env, room: nat, fuel: nat)
    requires e.CallFn? && FitsExpr(e, n) && Eval(c, e, env, room, fuel).Val?
    ensures FitsArgs(e.args, n) && e.args < e && Count(e.args) <= MaxArgs && fuel > 0
    ensures CompExpr(e) == CompArgs(e.args) + Plain(Pops(Count(e.args))) + [Call(Func(e.f))]
    ensures var p := EvalArgs(c, e.args, env, room, fuel);
            && p.Vals?
            && var d := Invoke(c, e.f, p.vs, p.env.mem, room, fuel - 1);
            && d.Done? && Eval(c, e, env, room, fuel) == Val(d.v, p.env.(mem := d.mem))
  {
  }

  /** Evaluating the arguments, popping them and jumping to the function. */
  lemma EnterOk(c: Cfg, code: seq<Instr>, tab: Table, n: nat, e: Expr<Place>, env: Env, room: nat,
                fuel: nat, s0: State, s: State) returns (t: State)
    requires Ready(c, code, tab, n, env, room, s0, s, CompExpr(e)) && FitsExpr(e, n) && e.CallFn?
    requires Eval(c, e, env, room, fuel).Val?
    ensures Func(e.f) in tab && Came(code, s0, t) && t.pc == tab[Func(e.f)]
    ensures t.regs[LINK] == s.pc + Size(CompExpr(e)) && Kept(c, n, s, t)
    ensures Rep(c, n, EvalArgs(c, e.args, env, room, fuel).env, room, t)
    decreases fuel, e, 0
  {
    hide CodeAt, Came, Plain, At, Pops, CompExpr, CompArgs, FitsExpr, Eval, EvalArgs, Above, Rep, Goto, Size;
    CallParts(c, n, e, env, room, fuel);
    RepStack(c, n, env, room, s);
    LinkedSizes(c, code, tab);
    var k := Count(e.args);
    CallCode(code, s.pc, CompArgs(e.args), k, e.f, tab);
    var t1 := ArgsOk(c, code, tab, n, e.args, env, room, fuel, s0, s);
    var t2 := PopsOk(code, k, s0, t1);
    t := GotoOk(code, s0, t2, tab[Func(e.f)]);
    AboveScratch(c, n, s.regs[FP], s.regs[SP], s, t1, t);
    RepPopped(c, n, EvalArgs(c, e.args, env, room, fuel).env, room, k, t1, t);
  }

  lemma RepStack(c: Cfg, n: nat, env: Env, room: nat, s: State)
    requires Rep(c, n, env, room, s)
    ensures c.lo + room == s.regs[SP] <= s.regs[FP] - n && s.regs[FP] <= c.top
  {
  }

  /** The code of a call: arguments, pops and the jump. */
  lemma {:induction false} CallCode(code: seq<Instr>, pos: nat, args: seq<Op>, k: nat, f: string, tab: Table)
    requires k <= MaxArgs && CodeAt(code, pos, args + Plain(Pops(k)) + [Call(Func(f))], tab)
    ensures CodeAt(code, pos, args, tab) && At(code, pos + Size(args), Pops(k))
    ensures var p := pos + Size(args) + |Pops(k)|;
            && Func(f) in tab && At(code, p, Goto(tab[Func(f)]))
            && pos + Size(args + Plain(Pops(k)) + [Call(Func(f))]) == p + 5
  {
    hide CodeAt, At, Plain, Pops, Goto, Size;
    Split(code, pos, args + Plain(Pops(k)), [Call(Func(f))], tab);
    Split(code, pos, args, Plain(Pops(k)), tab);
    PlainAt(code, pos + Size(args), Pops(k), tab);
    One(code, pos + Size(args + Plain(Pops(k))), Call(Func(f)), tab);
  }

  lemma LinkedSizes(c: Cfg, code: seq<Instr>, tab: Table)
    requires Linked(c, code, tab)
    ensures |code| == c.codeLen < c.lo <= c.top < 0x10000
  {
  }

  /** Words popped from the stack are room again. */
  lemma RepPopped(c: Cfg, n: nat, env: Env, room: nat, k: nat, s: State, t: State)
    requires k <= room && Rep(c, n, env, room - k, s) && t.mem == s.mem && t.regs[FP] == s.regs[FP]
    requires t.regs[SP] == s.regs[SP] + k <= s.regs[FP] - n
    ensures Rep(c, n, env, room, t)
  {
  }

  lemma CallOk(c: Cfg, code: seq<Instr>, tab: Table, n: nat, e: Expr<Place>, env: Env, room: nat,
               fuel: nat, s0: State, s: State) returns (t: State)
    requires Ready(c, code, tab, n, env, room, s0, s, CompExpr(e)) && FitsExpr(e, n) && e.CallFn?
    requires Eval(c, e, env, room, fuel).Val?
    ensures After(c, code, n, Eval(c, e, env, room, fuel).env, room, s0, s, CompExpr(e), t)
    ensures Holds(Eval(c, e, env, room, fuel).v, t)
    decreases fuel, e, 1
  {
    hide CodeAt, Came, CompExpr, FitsExpr, Eval, EvalArgs, Invoke;
    CallParts(c, n, e, env, room, fuel);
    var p := EvalArgs(c, e.args, env, room, fuel);
    var t1 := EnterOk(c, code, tab, n, e, env, room, fuel, s0, s);
    t := InvokeOk(c, code, tab, e.f, p.vs, p.env.mem, room, fuel - 1, s0, t1);
  }

  lemma KeptTrans(c: Cfg, n: nat, s: State, t: State, u: State)
    requires Kept(c, n, s, t) && Kept(c, n, t, u)
    ensures Kept(c, n, s, u)
  {
  }

  /** How a statement's code ends: after it, or at the function's return label with R0 overwritten. */
  ghost predicate Ends(c: Cfg, code: seq<Instr>, tab: Table, n: nat, fn: string, room: nat,
                       s0: State, s: State, ops: seq<Op>, r: Flow, t: State) {
    match r
    case Normal(env) => After(c, code, n, env, room, s0, s, ops, t)
    case Returned(_, env) =>
      && Came(code, s0, t) && End(fn) in tab && t.pc == tab[End(fn)] == t.regs[0]
      && Kept(c, n, s, t) && Rep(c, n, env, room, t)
    case Stuck(_) => true
  }

  lemma StmtOk(c: Cfg, code: seq<Instr>, tab: Table, n: nat, fn: string, s: Stmt<Place>, l: nat, env: Env,
               room: nat, fuel: nat, s0: State, m: State) returns (t: State)
    requires Ready(c, code, tab, n, env, room, s0, m, CompStmt(s, fn, l)) && FitsStmt(s, n)
    requires !Exec(c, s, env, room, fuel).Stuck?
    ensures Ends(c, code, tab, n, fn, room, s0, m, CompStmt(s, fn, l), Exec(c, s, env, room, fuel), t)
    decreases fuel, s, 2
  {
    hide CodeAt, Came, Plain, At, WriteVar, Linked, Rep, Kept, CompExpr, Eval;
    match s
    case Return(e) => t := ReturnOk(c, code, tab, n, fn, s, l, env, room, fuel, s0, m);
    case If(_, _) => t := IfOk(c, code, tab, n, fn, s, l, env, room, fuel, s0, m);
    case IfElse(_, _, _) => t := IfElseOk(c, code, tab, n, fn, s, l, env, room, fuel, s0, m);
    case While(_, _) => t := WhileOk(c, code, tab, n, fn, s, l, env, room, fuel, s0, m);
    case Block(ss) => t := StmtsOk(c, code, tab, n, fn, ss, l, env, room, fuel, s0, m);
    case Do(e) => t := ExprOk(c, code, tab, n, e, env, room, fuel, s0, m);
    case Empty =>
      One(code, m.pc, Nop, tab);
      t := NopOk(c, code, tab, n, env, room, s0, m);
    case Decl(_) => t := m; KeptRefl(c, n, m);
    case DeclInit(_, _) => t := InitOk(c, code, tab, n, fn, s, l, env, room, fuel, s0, m);
  }

  lemma KeptRefl(c: Cfg, n: nat, s: State)
    ensures Kept(c, n, s, s)
  {
  }

  lemma NopOk(c: Cfg, code: seq<Instr>, tab: Table, n: nat, env: Env, room: nat, s0: State, s: State)
    returns (t: State)
    requires Came(code, s0, s) && Rep(c, n, env, room, s) && OpAt(code, s.pc, Nop, tab)
    ensures After(c, code, n, env, room, s0, s, [Nop], t)
  {
    t := StepOk(code, s0, s, CpyRR(0, 0));
  }

  lemma ReturnOk(c: Cfg, code: seq<Instr>, tab: Table, n: nat, fn: string, s: Stmt<Place>, l: nat, env: Env,
                 room: nat, fuel: nat, s0: State, m: State) returns (t: State)
    requires Ready(c, code, tab, n, env, room, s0, m, CompStmt(s, fn, l)) && FitsStmt(s, n) && s.Return?
    requires !Exec(c, s, env, room, fuel).Stuck?
    ensures Ends(c, code, tab, n, fn, room, s0, m, CompStmt(s, fn, l), Exec(c, s, env, room, fuel), t)
    decreases fuel, s, 1
  {
    hide CodeAt, Came, At, Linked, CompExpr, Eval, Goto;
    Split(code, m.pc, CompExpr(s.e), [Jabs(End(fn))], tab);
    var t1 := ExprOk(c, code, tab, n, s.e, env, room, fuel, s0, m);
    One(code, t1.pc, Jabs(End(fn)), tab);
    t := GotoOk(code, s0, t1, tab[End(fn)]);
  }

  lemma InitOk(c: Cfg, code: seq<Instr>, tab: Table, n: nat, fn: string, s: Stmt<Place>, l: nat, env: Env,
               room: nat, fuel: nat, s0: State, m: State) returns (t: State)
    requires Ready(c, code, tab, n, env, room, s0, m, CompStmt(s, fn, l)) && FitsStmt(s, n) && s.DeclInit?
    requires !Exec(c, s, env, room, fuel).Stuck?
    ensures Ends(c, code, tab, n, fn, room, s0, m, CompStmt(s, fn, l), Exec(c, s, env, room, fuel), t)
    decreases fuel, s, 1
  {
    hide CodeAt, Came, Plain, WriteVar, At, CompExpr, Eval;
    Split(code, m.pc, CompExpr(s.e), Plain(WriteVar(s.x)), tab);
    var r := Use(Eval(c, s.e, env, room, fuel));
    var t1 := ExprOk(c, code, tab, n, s.e, env, room, fuel, s0, m);
    PlainAt(code, t1.pc, WriteVar(s.x), tab);
    t := WriteVarOk(c, code, tab, n, s.x, r.env, room, s0, t1);
    KeptTrans(c, n, m, t1, t);
  }

  /** A condition followed by a jump over the next code when it is zero. */
  lemma CondOk(c: Cfg, code: seq<Instr>, tab: Table, n: nat, e: Expr<Place>, skip: Label, s: Stmt<Place>,
               env: Env, room: nat, fuel: nat, s0: State, m: State) returns (t: State)
    requires Ready(c, code, tab, n, env, room, s0, m, CompExpr(e) + [JabsIfZero(skip)]) && FitsExpr(e, n)
    requires Use(Eval(c, e, env, room, fuel)).Val? && e < s
    ensures var r := Use(Eval(c, e, env, room, fuel));
            && skip in tab && Came(code, s0, t) && Kept(c, n, m, t) && Rep(c, n, r.env, room, t)
            && Size(CompExpr(e) + [JabsIfZero(skip)]) == Size(CompExpr(e)) + 7
            && t.pc == if r.v.value == 0 then tab[skip] else m.pc + Size(CompExpr(e)) + 7
    decreases fuel, s, 0
  {
    hide CodeAt, Came, At, Linked, CompExpr, Eval, Goto;
    Split(code, m.pc, CompExpr(e), [JabsIfZero(skip)], tab);
    var t1 := ExprOk(c, code, tab, n, e, env, room, fuel, s0, m);
    One(code, t1.pc, JabsIfZero(skip), tab);
    t := JumpIfZeroOk(code, s0, t1, tab[skip]);
  }

  lemma {:induction false} MarkIs(code: seq<Instr>, pos: nat, l: Label, tab: Table)
    requires CodeAt(code, pos, [Mark(l)], tab)
    ensures l in tab && tab[l] == pos && Size([Mark(l)]) == 0
  {
    One(code, pos, Mark(l), tab);
  }

  /** The rest of a run from a later point of the same statement. */
  lemma {:induction false} Resume(c: Cfg, code: seq<Instr>, tab: Table, n: nat, fn: string, room: nat, s0: State, s: State,
               t: State, ops: seq<Op>, ops': seq<Op>, r: Flow, u: State)
    requires Kept(c, n, s, t) && Ends(c, code, tab, n, fn, room, s0, t, ops', r, u)
    requires r.Normal? ==> s.pc + Size(ops) == t.pc + Size(ops')
    ensures Ends(c, code, tab, n, fn, room, s0, s, ops, r, u)
  {
    hide Rep, Came;
    if !r.Stuck? {
      KeptTrans(c, n, s, t, u);
    }
  }

  lemma IfOk(c: Cfg, code: seq<Instr>, tab: Table, n: nat, fn: string, s: Stmt<Place>, l: nat, env: Env,
             room: nat, fuel: nat, s0: State, m: State) returns (t: State)
    requires Ready(c, code, tab, n, env, room, s0, m, CompStmt(s, fn, l)) && FitsStmt(s, n) && s.If?
    requires !Exec(c, s, env, room, fuel).Stuck?
    ensures Ends(c, code, tab, n, fn, room, s0, m, CompStmt(s, fn, l), Exec(c, s, env, room, fuel), t)
    decreases fuel, s, 1
  {
    hide CodeAt, Came, Linked, CompExpr, Eval, Rep, Kept;
    var head := CompExpr(s.c) + [JabsIfZero(Else(l))];
    var body := CompStmt(s.thn, fn, l + 2);
    Split(code, m.pc, head + body, [Mark(Else(l))], tab);
    Split(code, m.pc, head, body, tab);
    MarkIs(code, m.pc + Size(head + body), Else(l), tab);
    var r := Use(Eval(c, s.c, env, room, fuel));
    var t1 := CondOk(c, code, tab, n, s.c, Else(l), s, env, room, fuel, s0, m);
    if r.v.value == 0 {
      t := t1;
    } else {
      t := StmtOk(c, code, tab, n, fn, s.thn, l + 2, r.env, room, fuel, s0, t1);
      Resume(c, code, tab, n, fn, room, s0, m, t1, CompStmt(s, fn, l), body, Exec(c, s, env, room, fuel), t);
    }
  }

  lemma JabsOk(c: Cfg, code: seq<Instr>, tab: Table, n: nat, env: Env, room: nat, l: Label, s0: State, s: State)
    returns (t: State)
    requires Came(code, s0, s) && Rep(c, n, env, room, s) && CodeAt(code, s.pc, [Jabs(l)], tab)
    ensures l in tab && Came(code, s0, t) && t.pc == tab[l] && Kept(c, n, s, t) && Rep(c, n, env, room, t)
    ensures Size([Jabs(l)]) == 5
  {
    hide CodeAt, Goto;
    One(code, s.pc, Jabs(l), tab);
    t := GotoOk(code, s0, s, tab[l]);
  }

  lemma IfElseCode(code: seq<Instr>, tab: Table, fn: string, s: Stmt<Place>, l: nat, pos: nat)
    requires s.IfElse? && CodeAt(code, pos, CompStmt(s, fn, l), tab)
    ensures var head := CompExpr(s.c) + [JabsIfZero(Else(l))];
            var a := CompStmt(s.thn, fn, l + 2);
            var b := CompStmt(s.els, fn, l + 2 + LabelCount(s.thn));
            var pa := pos + Size(head);
            var pb := pa + Size(a) + 5;
            && CodeAt(code, pos, head, tab) && CodeAt(code, pa, a, tab)
            && CodeAt(code, pa + Size(a), [Jabs(IfEnd(l + 1))], tab)
            && CodeAt(code, pb, b, tab)
            && Else(l) in tab && tab[Else(l)] == pb
            && IfEnd(l + 1) in tab && tab[IfEnd(l + 1)] == pb + Size(b) == pos + Size(CompStmt(s, fn, l))
  {
    hide CodeAt, CompExpr, LabelCount;
    var head := CompExpr(s.c) + [JabsIfZero(Else(l))];
    SplitSix(code, pos, head, CompStmt(s.thn, fn, l + 2), Jabs(IfEnd(l + 1)), Else(l),
             CompStmt(s.els, fn, l + 2 + LabelCount(s.thn)), IfEnd(l + 1), tab);
  }

  lemma SplitSix(code: seq<Instr>, pos: nat, head: seq<Op>, a: seq<Op>, j: Op, m: Label, b: seq<Op>, z: Label,
                 tab: Table)
    requires j.Jabs? && CodeAt(code, pos, head + a + [j] + [Mark(m)] + b + [Mark(z)], tab)
    ensures var pa := pos + Size(head);
            var pb := pa + Size(a) + 5;
            && CodeAt(code, pos, head, tab) && CodeAt(code, pa, a, tab) && CodeAt(code, pa + Size(a), [j], tab)
            && CodeAt(code, pb, b, tab) && m in tab && tab[m] == pb
            && z in tab && tab[z] == pb + Size(b) == pos + Size(head + a + [j] + [Mark(m)] + b + [Mark(z)])
  {
    hide CodeAt, Size;
    Split(code, pos, head + a + [j] + [Mark(m)] + b, [Mark(z)], tab);
    Split(code, pos, head + a + [j] + [Mark(m)], b, tab);
    Split(code, pos, head + a + [j], [Mark(m)], tab);
    Split(code, pos, head + a, [j], tab);
    Split(code, pos, head, a, tab);
    One(code, pos + Size(head + a), j, tab);
    MarkIs(code, pos + Size(head + a + [j]), m, tab);
    MarkIs(code, pos + Size(head + a + [j] + [Mark(m)] + b), z, tab);
  }

  lemma IfElseOk(c: Cfg, code: seq<Instr>, tab: Table, n: nat, fn: string, s: Stmt<Place>, l: nat, env: Env,
                 room: nat, fuel: nat, s0: State, m: State) returns (t: State)
    requires Ready(c, code, tab, n, env, room, s0, m, CompStmt(s, fn, l)) && FitsStmt(s, n) && s.IfElse?
    requires !Exec(c, s, env, room, fuel).Stuck?
    ensures Ends(c, code, tab, n, fn, room, s0, m, CompStmt(s, fn, l), Exec(c, s, env, room, fuel), t)
    decreases fuel, s, 1
  {
    hide CodeAt, Came, Linked, CompExpr, CompStmt, Eval, Rep, Kept;
    IfElseCode(code, tab, fn, s, l, m.pc);
    var r := Use(Eval(c, s.c, env, room, fuel));
    var l' := l + 2 + LabelCount(s.thn);
    var all := Exec(c, s, env, room, fuel);
    var t1 := CondOk(c, code, tab, n, s.c, Else(l), s, env, room, fuel, s0, m);
    if r.v.value == 0 {
      t := StmtOk(c, code, tab, n, fn, s.els, l', r.env, room, fuel, s0, t1);
      Resume(c, code, tab, n, fn, room, s0, m, t1, CompStmt(s, fn, l), CompStmt(s.els, fn, l'), all, t);
    } else {
      t := StmtOk(c, code, tab, n, fn, s.thn, l + 2, r.env, room, fuel, s0, t1);
      if all.Normal? {
        var t2 := t;
        t := JabsOk(c, code, tab, n, all.env, room, IfEnd(l + 1), s0, t2);
        KeptTrans(c, n, t1, t2, t);
        KeptTrans(c, n, m, t1, t);
      } else {
        KeptTrans(c, n, m, t1, t);
      }
    }
  }

  lemma WhileCode(code: seq<Instr>, tab: Table, fn: string, s: Stmt<Place>, l: nat, pos: nat)
    requires s.While? && CodeAt(code, pos, CompStmt(s, fn, l), tab)
    ensures var head := CompExpr(s.c) + [JabsIfZero(Wend(l + 1))];
            var body := CompStmt(s.body, fn, l + 2);
            && Top(l) in tab && tab[Top(l)] == pos
            && CodeAt(code, pos, head, tab) && CodeAt(code, pos + Size(head), body, tab)
            && CodeAt(code, pos + Size(head) + Size(body), [Jabs(Top(l))], tab)
            && Wend(l + 1) in tab && tab[Wend(l + 1)] == pos + Size(CompStmt(s, fn, l))
  {
    hide CodeAt;
    var head := CompExpr(s.c) + [JabsIfZero(Wend(l + 1))];
    var body := CompStmt(s.body, fn, l + 2);
    var top, back := [Mark(Top(l))], [Jabs(Top(l))];
    Split(code, pos, top + head + body + back, [Mark(Wend(l + 1))], tab);
    Split(code, pos, top + head + body, back, tab);
    Split(code, pos, top + head, body, tab);
    Split(code, pos, top, head, tab);
    MarkIs(code, pos, Top(l), tab);
    MarkIs(code, pos + Size(top + head + body + back), Wend(l + 1), tab);
  }

  lemma WhileOk(c: Cfg, code: seq<Instr>, tab: Table, n: nat, fn: string, s: Stmt<Place>, l: nat, env: Env,
                room: nat, fuel: nat, s0: State, m: State) returns (t: State)
    requires Ready(c, code, tab, n, env, room, s0, m, CompStmt(s, fn, l)) && FitsStmt(s, n) && s.While?
    requires !Exec(c, s, env, room, fuel).Stuck?
    ensures Ends(c, code, tab, n, fn, room, s0, m, CompStmt(s, fn, l), Exec(c, s, env, room, fuel), t)
    decreases fuel, s, 1
  {
    hide CodeAt, Came, Linked, CompExpr, CompStmt, Eval, Rep, Kept;
    WhileCode(code, tab, fn, s, l, m.pc);
    var r := Use(Eval(c, s.c, env, room, fuel));
    var all := Exec(c, s, env, room, fuel);
    var t1 := CondOk(c, code, tab, n, s.c, Wend(l + 1), s, env, room, fuel, s0, m);
    if r.v.value == 0 {
      t := t1;
    } else {
      var b := Exec(c, s.body, r.env, room, fuel);
      var t2 := StmtOk(c, code, tab, n, fn, s.body, l + 2, r.env, room, fuel, s0, t1);
      KeptTrans(c, n, m, t1, t2);
      if b.Normal? {
        var t3 := JabsOk(c, code, tab, n, b.env, room, Top(l), s0, t2);
        KeptTrans(c, n, m, t2, t3);
        t := StmtOk(c, code, tab, n, fn, s, l, b.env, room, fuel - 1, s0, t3);
        Resume(c, code, tab, n, fn, room, s0, m, t3, CompStmt(s, fn, l), CompStmt(s, fn, l), all, t);
      } else {
        t := t2;
      }
    }
  }

  lemma StmtsOk(c: Cfg, code: seq<Instr>, tab: Table, n: nat, fn: string, ss: Stmts<Place>, l: nat, env: Env,
                room: nat, fuel: nat, s0: State, m: State) returns (t: State)
    requires Ready(c, code, tab, n, env, room, s0, m, CompStmts(ss, fn, l)) && FitsStmts(ss, n)
    requires !ExecAll(c, ss, env, room, fuel).Stuck?
    ensures Ends(c, code, tab, n, fn, room, s0, m, CompStmts(ss, fn, l), ExecAll(c, ss, env, room, fuel), t)
    decreases fuel, ss, 2
  {
    hide CodeAt, Came, Linked, Rep, Kept, CompStmt, Exec, FitsStmt;
    match ss
    case Nil => t := m; KeptRefl(c, n, m);
    case Cons(s, rest) =>
      var l' := l + LabelCount(s);
      Split(code, m.pc, CompStmt(s, fn, l), CompStmts(rest, fn, l'), tab);
      var r := Exec(c, s, env, room, fuel);
      t := StmtOk(c, code, tab, n, fn, s, l, env, room, fuel, s0, m);
      if r.Normal? {
        var t1 := t;
        t := StmtsOk(c, code, tab, n, fn, rest, l', r.env, room, fuel, s0, t1);
        Resume(c, code, tab, n, fn, room, s0, m, t1, CompStmts(ss, fn, l), CompStmts(rest, fn, l'),
               ExecAll(c, ss, env, room, fuel), t);
      }
  }

  lemma SaveOk(code: seq<Instr>, s0: State, s: State) returns (t: State)
    requires Came(code, s0, s) && At(code, s.pc, SaveLinks) && |code| + 2 <= s.regs[SP]
    ensures Came(code, s0, t) && t.pc == s.pc + 5
    ensures t.regs[FP] == t.regs[SP] == s.regs[SP] - 2
    ensures t.mem == s.mem[s.regs[SP] - 1 := s.regs[FP]][s.regs[SP] - 2 := s.regs[LINK]]
  {
    hide Came, Bits;
    t := PushRegOk(code, s0, s, FP);
    t := PushRegOk(code, s0, t, LINK);
    t := StepOk(code, s0, t, CpyRR(FP, SP));
  }

  /** Saving the frame pointer and the return address and making room for the locals. */
  lemma EntryOk(code: seq<Instr>, n: nat, s0: State, s: State) returns (t: State)
    requires Came(code, s0, s) && At(code, s.pc, Entry(n)) && |code| + 2 + n <= s.regs[SP] && n <= 0xFFFF
    ensures Came(code, s0, t) && t.pc == s.pc + 10
    ensures t.regs[FP] == s.regs[SP] - 2 && t.regs[SP] == s.regs[SP] - 2 - n
    ensures t.mem == s.mem[s.regs[SP] - 1 := s.regs[FP]][s.regs[SP] - 2 := s.regs[LINK]]
  {
    hide At, Const;
    AtSlice(code, s.pc, SaveLinks, Const(n) + [SubRR(SP, 0)]);
    AtSlice(code, s.pc + 5, Const(n), [SubRR(SP, 0)]);
    AtHead(code, s.pc + 9, SubRR(SP, 0), []);
    t := SaveOk(code, s0, s);
    t := ConstOk(code, s0, t, n);
    t := StepOk(code, s0, t, SubRR(SP, 0));
  }

  lemma SpillCode(code: seq<Instr>, pos: nat, i: nat)
    requires i < MaxArgs && At(code, pos, Spill(i))
    ensures pos + 8 <= |code| && At(code, pos + 1, Const(i + 1))
    ensures code[pos] == CpyRR(0, i + 1) && code[pos + 5] == CpyRR(8, FP)
    ensures code[pos + 6] == SubRR(8, 0) && code[pos + 7] == CpyMR(8, 0)
  {
    hide At, Const;
    var tail := [CpyRR(8, FP)] + ([SubRR(8, 0)] + ([CpyMR(8, 0)] + []));
    assert tail == [CpyRR(8, FP), SubRR(8, 0), CpyMR(8, 0)];
    AtHead(code, pos, CpyRR(0, i + 1), Const(i + 1) + tail);
    AtSlice(code, pos + 1, Const(i + 1), tail);
    AtHead(code, pos + 5, CpyRR(8, FP), [SubRR(8, 0)] + ([CpyMR(8, 0)] + []));
    AtHead(code, pos + 6, SubRR(8, 0), [CpyMR(8, 0)] + []);
    AtHead(code, pos + 7, CpyMR(8, 0), []);
  }

  lemma SpillOk(code: seq<Instr>, i: nat, s0: State, s: State) returns (t: State)
    requires i < MaxArgs && Came(code, s0, s) && At(code, s.pc, Spill(i)) && |code| + i + 1 <= s.regs[FP]
    ensures Came(code, s0, t) && t.pc == s.pc + 8 && t.regs[FP] == s.regs[FP] && t.regs[SP] == s.regs[SP]
    ensures t.mem == s.mem[s.regs[FP] - 1 - i := i + 1]
  {
    hide At, Const, Bits, Came;
    SpillCode(code, s.pc, i);
    t := StepOk(code, s0, s, CpyRR(0, i + 1));
    t := ConstOk(code, s0, t, i + 1);
    t := StepOk(code, s0, t, CpyRR(8, FP));
    t := StepOk(code, s0, t, SubRR(8, 0));
    t := StepOk(code, s0, t, CpyMR(8, 0));
  }

  /** Whatever the arguments were, parameter k is spilled as k + 1. */
  lemma SpillsOk(code: seq<Instr>, i: nat, n: nat, s0: State, s: State) returns (t: State)
    requires i <= n <= MaxArgs && Came(code, s0, s) && At(code, s.pc, Spills(i, n)) && |code| + n <= s.regs[FP]
    ensures Came(code, s0, t) && t.pc == s.pc + |Spills(i, n)|
    ensures t.regs[FP] == s.regs[FP] && t.regs[SP] == s.regs[SP]
    ensures forall a: Word :: s.regs[FP] - n <= a < s.regs[FP] - i ==> t.mem[a] == s.regs[FP] - a
    ensures forall a: Word :: !(s.regs[FP] - n <= a < s.regs[FP] - i) ==> t.mem[a] == s.mem[a]
    decreases n - i
  {
    hide At, Came, Spill;
    if i == n {
      t := s;
    } else {
      AtSlice(code, s.pc, Spill(i), Spills(i + 1, n));
      SpillSize(i);
      t := SpillOk(code, i, s0, s);
      t := SpillsOk(code, i + 1, n, s0, t);
    }
  }

  lemma SpillSize(i: nat)
    requires i < MaxArgs
    ensures |Spill(i)| == 8
  {
  }

  lemma RetOk(code: seq<Instr>, s0: State, s: State) returns (t: State)
    requires Came(code, s0, s) && At(code, s.pc, RetBlock)
    requires |code| <= s.regs[FP] <= 0xFFFD
    ensures Came(code, s0, t) && t.pc == s.mem[s.regs[FP]] && t.regs[FP] == s.mem[s.regs[FP] + 1]
    ensures t.regs[SP] == s.regs[FP] + 2 && t.regs[0] == s.regs[0] && t.mem == s.mem
  {
    hide Came, Bits;
    t := StepOk(code, s0, s, CpyRR(SP, FP));
    t := PopOk(code, s0, t, LINK);
    t := PopOk(code, s0, t, FP);
    t := JumpOk(code, s0, t, CpyPc(LINK));
  }

  lemma {:induction false} FuncCode(code: seq<Instr>, tab: Table, f: Function, n: nat)
    requires f.params <= MaxArgs && Func(f.name) in tab && End(f.name) in tab
    requires CodeAt(code, tab[Func(f.name)], FuncOps(f, n), tab)
    ensures var pos := tab[Func(f.name)];
            var body := pos + |Prologue(f)|;
            var ops := CompStmts(f.body, f.name, n);
            && At(code, pos, Prologue(f)) && CodeAt(code, body, ops, tab)
            && tab[End(f.name)] == body + Size(ops) && At(code, tab[End(f.name)], RetBlock)
  {
    hide CodeAt, CompStmts, Prologue, Plain, At;
    var pos := tab[Func(f.name)];
    var ops := CompStmts(f.body, f.name, n);
    var mark, tail := [Mark(Func(f.name))], [Mark(End(f.name)), Ret];
    Split(code, pos, mark + Plain(Prologue(f)), ops + tail, tab);
    Split(code, pos, mark, Plain(Prologue(f)), tab);
    MarkIs(code, pos, Func(f.name), tab);
    PlainAt(code, pos, Prologue(f), tab);
    Split(code, pos + |Prologue(f)|, ops, tail, tab);
    assert tail == [Mark(End(f.name))] + [Ret];
    Split(code, pos + |Prologue(f)| + Size(ops), [Mark(End(f.name))], [Ret], tab);
    MarkIs(code, pos + |Prologue(f)| + Size(ops), End(f.name), tab);
    One(code, tab[End(f.name)], Ret, tab);
  }

  /** The function entry: a fresh frame whose parameters hold what the emitted code puts there. */
  lemma PrologueOk(c: Cfg, code: seq<Instr>, tab: Table, f: Function, mem: Memory, room: nat,
                   s0: State, s: State) returns (t: State)
    requires Linked(c, code, tab) && Came(code, s0, s) && FitsFunction(f) && At(code, s.pc, Prologue(f))
    requires c.lo + room == s.regs[SP] <= c.top && room >= 2 + f.locals
    requires forall a: Word :: !(c.lo <= a < c.top) ==> s.mem[a] == mem[a]
    ensures var vals := Spilled(f.params);
            && Came(code, s0, t) && t.pc == s.pc + |Prologue(f)|
            && Rep(c, f.locals, Env(Frame(vals), mem), room - 2 - f.locals, t)
    ensures t.regs[FP] == s.regs[SP] - 2
    ensures t.mem[s.regs[SP] - 2] == s.regs[LINK] && t.mem[s.regs[SP] - 1] == s.regs[FP]
    ensures forall a: Word :: s.regs[SP] <= a < c.top ==> t.mem[a] == s.mem[a]
  {
    hide At, Came, Entry, Spills, FitsStmts, Compiled;
    AtSlice(code, s.pc, Entry(f.locals), Spills(0, f.params));
    EntrySize(f.locals);
    var t1 := EntryOk(code, f.locals, s0, s);
    t := SpillsOk(code, 0, f.params, s0, t1);
  }

  lemma EntrySize(n: nat)
    ensures |Entry(n)| == 10
  {
  }

  /** A call runs the function and returns to the address in R11 with the frame registers restored. */
  lemma InvokeOk(c: Cfg, code: seq<Instr>, tab: Table, name: string, vals: seq<Word>, mem: Memory, room: nat,
                 fuel: nat, s0: State, s: State) returns (t: State)
    requires Linked(c, code, tab) && Came(code, s0, s)
    requires c.lo + room == s.regs[SP] <= c.top
    requires forall a: Word :: !(c.lo <= a < c.top) ==> s.mem[a] == mem[a]
    requires Invoke(c, name, vals, mem, room, fuel).Done? && Func(name) in tab && s.pc == tab[Func(name)]
    ensures Came(code, s0, t) && t.pc == s.regs[LINK]
    ensures t.regs[FP] == s.regs[FP] && t.regs[SP] == s.regs[SP]
    ensures forall a: Word :: s.regs[SP] <= a < c.top ==> t.mem[a] == s.mem[a]
    ensures var d := Invoke(c, name, vals, mem, room, fuel);
            && (forall a: Word :: !(c.lo <= a < c.top) ==> t.mem[a] == d.mem[a])
            && Holds(d.v, t)
    decreases fuel
  {
    hide At, Came, CodeAt, CompStmts, Prologue, FuncOps, ExecAll;
    var f := c.Find(name).value;
    var n: nat :| CodeAt(code, tab[Func(f.name)], FuncOps(f, n), tab);
    FuncCode(code, tab, f, n);
    var env := Env(Frame(Spilled(f.params)), mem);
    var t1 := PrologueOk(c, code, tab, f, mem, room, s0, s);
    var t2 := StmtsOk(c, code, tab, f.locals, f.name, f.body, n, env, room - 2 - f.locals, fuel, s0, t1);
    t := RetOk(code, s0, t2);
  }
}
