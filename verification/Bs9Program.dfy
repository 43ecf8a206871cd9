/** Whole programs: from the start-up stub to the halt, and what the emitted calls change. */
module Bs9Program {
  import opened Options
  import opened Words
  import opened Bs9Isa
  import opened Bs9Ops
  import opened Bs9Source
  import opened Bs9Gen
  import opened Bs9Exec
  import opened Bs9Correct

  ghost predicate Loaded(c: Cfg, code: seq<Instr>, tab: Table) {
    Linked(c, code, tab) && CodeAt(code, 0, StartOps(c.top), tab)
  }

  /** The run of a compiled program reaches the halt address with the memory the source run leaves,
      outside the stack area, and the stack pointer where the stub put it. What main returned is gone: R0 holds the
      halt address. */
  lemma ProgramOk(c: Cfg, code: seq<Instr>, tab: Table, fuel: nat, s: State) returns (t: State)
    requires Loaded(c, code, tab) && s.pc == 0 && RunMain(c, s.mem, fuel).Done?
    ensures Reaches(code, s, t) && t.pc == 0xFFFF && Step(code, t).None? && t.regs[SP] == c.top && t.regs[0] == 0xFFFF
    ensures forall a: Word :: !(c.lo <= a < c.top) ==> t.mem[a] == RunMain(c, s.mem, fuel).mem[a]
  {
    hide CodeAt, At, Invoke, Plain, Goto, Const, StartOps;
    StartCode(code, tab, c.top);
    Here(code, s);
    t := ConstOk(code, s, s, c.top);
    t := StepOk(code, s, t, CpyRR(SP, 0));
    t := GotoOk(code, s, t, tab[Func("main")]);
    t := InvokeOk(c, code, tab, "main", [], s.mem, c.top - c.lo, fuel, s, t);
    t := GotoOk(code, s, t, 0xFFFF);
  }

  lemma {:induction false} StartCode(code: seq<Instr>, tab: Table, top: Word)
    requires CodeAt(code, 0, StartOps(top), tab)
    ensures At(code, 0, Const(top)) && |code| >= 15 && code[4] == CpyRR(SP, 0) && Func("main") in tab
    ensures At(code, 5, Goto(tab[Func("main")])) && At(code, 10, Goto(0xFFFF))
  {
    hide CodeAt, Const, At;
    var init := Const(top) + [CpyRR(SP, 0)];
    Split(code, 0, Plain(init), [Call(Func("main")), Halt], tab);
    PlainAt(code, 0, init, tab);
    AtSlice(code, 0, Const(top), [CpyRR(SP, 0)]);
    AtHead(code, 4, CpyRR(SP, 0), []);
    assert [Call(Func("main")), Halt] == [Call(Func("main"))] + [Halt];
    Split(code, 5, [Call(Func("main"))], [Halt], tab);
    One(code, 5, Call(Func("main")), tab);
    One(code, 10, Halt, tab);
    AtFits(code, 10, Goto(0xFFFF));
  }

  /** A call that leaves the function by `return` delivers the address of its epilogue in R0, so it delivers
      the promised value exactly when that value happens to be this address. */
  lemma ReturnedValueIsLost(c: Cfg, code: seq<Instr>, tab: Table, f: Function, room: nat, fuel: nat,
                            mem: Memory, s0: State, s: State) returns (t: State)
    requires Linked(c, code, tab) && Came(code, s0, s) && c.Find(f.name) == Some(f)
    requires c.lo + room == s.regs[SP] <= c.top && room >= 2 + f.locals
    requires forall a: Word :: !(c.lo <= a < c.top) ==> s.mem[a] == mem[a]
    requires Func(f.name) in tab && s.pc == tab[Func(f.name)]
    requires ExecAll(c, f.body, Env(Frame(Spilled(f.params)), mem), room - 2 - f.locals, fuel).Returned?
    ensures Came(code, s0, t) && t.pc == s.regs[LINK]
    ensures var r := ExecAll(c, f.body, Env(Frame(Spilled(f.params)), mem), room - 2 - f.locals, fuel);
            && End(f.name) in tab && t.regs[0] == tab[End(f.name)]
            && (r.v.Some? ==> (t.regs[0] == r.v.value <==> r.v.value == tab[End(f.name)]))
  {
    hide CodeAt, ExecAll, CompStmts, FuncOps;
    t := InvokeOk(c, code, tab, f.name, [], mem, room, fuel, s0, s);
  }

  /** No call's value is used and no arguments are passed. */
  predicate QuietExpr(e: Expr<Place>) {
    match e
    case Num(_) => true
    case Var(_) => true
    case Load(a) => QuietExpr(a)
    case Store(a, v) => QuietExpr(a) && QuietExpr(v)
    case CallFn(_, _) => false
    case Pos(e1) => QuietExpr(e1)
    case Paren(e1) => QuietExpr(e1)
    case Neg(e1) => QuietExpr(e1)
    case Compl(e1) => QuietExpr(e1)
    case Not(e1) => QuietExpr(e1)
    case Bin(_, l, r) => QuietExpr(l) && QuietExpr(r)
    case Assign(_, e1) => QuietExpr(e1)
  }

  predicate QuietStmt(s: Stmt<Place>) {
    match s
    case Return(e) => QuietExpr(e)
    case If(e, thn) => QuietExpr(e) && QuietStmt(thn)
    case IfElse(e, thn, els) => QuietExpr(e) && QuietStmt(thn) && QuietStmt(els)
    case While(e, body) => QuietExpr(e) && QuietStmt(body)
    case Block(ss) => QuietStmts(ss)
    case Do(CallFn(_, args)) => args.NoArgs?
    case Do(e) => QuietExpr(e)
    case DeclInit(_, e) => QuietExpr(e)
    case _ => true
  }

  predicate QuietStmts(ss: Stmts<Place>) {
    match ss
    case Nil => true
    case Cons(s, rest) => QuietStmt(s) && QuietStmts(rest)
  }

  ghost predicate Quiet(c: Cfg) {
    forall name :: c.Find(name).Some? ==> c.Find(name).value.params == 0 && QuietStmts(c.Find(name).value.body)
  }

  function Promise(c: Cfg): Cfg { c.(mode := Promised) }

  lemma {:induction false} QuietExprAgrees(c: Cfg, e: Expr<Place>, env: Env, room: nat, fuel: nat)
    requires QuietExpr(e)
    ensures Eval(c, e, env, room, fuel) == Eval(Promise(c), e, env, room, fuel)
    decreases e
  {
    match e
    case Num(_) =>
    case Var(_) =>
    case Load(a) => QuietExprAgrees(c, a, env, room, fuel);
    case Store(a, v) => QuietPairAgrees(c, e, a, v, env, room, fuel);
    case Pos(e1) => QuietExprAgrees(c, e1, env, room, fuel);
    case Paren(e1) => QuietExprAgrees(c, e1, env, room, fuel);
    case Neg(e1) => QuietExprAgrees(c, e1, env, room, fuel);
    case Compl(e1) => QuietExprAgrees(c, e1, env, room, fuel);
    case Not(e1) => QuietExprAgrees(c, e1, env, room, fuel);
    case Bin(_, l, r) => QuietPairAgrees(c, e, l, r, env, room, fuel);
    case Assign(_, e1) => QuietExprAgrees(c, e1, env, room, fuel);
  }

  lemma {:induction false} QuietPairAgrees(c: Cfg, e: Expr<Place>, e1: Expr<Place>, e2: Expr<Place>, env: Env,
                                           room: nat, fuel: nat)
    requires QuietExpr(e1) && QuietExpr(e2) && e1 < e && e2 < e
    ensures Eval(c, e1, env, room, fuel) == Eval(Promise(c), e1, env, room, fuel)
    ensures var p := Use(Eval(c, e1, env, room, fuel));
            p.Val? && room > 0 ==>
              Eval(c, e2, p.env, room - 1, fuel) == Eval(Promise(c), e2, p.env, room - 1, fuel)
    decreases e, 0
  {
    hide Eval, QuietExpr, Promise;
    QuietExprAgrees(c, e1, env, room, fuel);
    var p := Use(Eval(c, e1, env, room, fuel));
    if p.Val? && room > 0 {
      QuietExprAgrees(c, e2, p.env, room - 1, fuel);
    }
  }

  lemma {:induction false} QuietStmtAgrees(c: Cfg, s: Stmt<Place>, env: Env, room: nat, fuel: nat)
    requires Quiet(c) && QuietStmt(s)
    ensures Exec(c, s, env, room, fuel) == Exec(Promise(c), s, env, room, fuel)
    decreases fuel, s, 1
  {
    match s
    case Return(e) => QuietExprAgrees(c, e, env, room, fuel);
    case If(e, thn) =>
      QuietExprAgrees(c, e, env, room, fuel);
      var r := Use(Eval(c, e, env, room, fuel));
      if r.Val? {
        QuietStmtAgrees(c, thn, r.env, room, fuel);
      }
    case IfElse(e, thn, els) =>
      QuietExprAgrees(c, e, env, room, fuel);
      var r := Use(Eval(c, e, env, room, fuel));
      if r.Val? {
        QuietStmtAgrees(c, thn, r.env, room, fuel);
        QuietStmtAgrees(c, els, r.env, room, fuel);
      }
    case While(e, body) =>
      QuietExprAgrees(c, e, env, room, fuel);
      var r := Use(Eval(c, e, env, room, fuel));
      if r.Val? && r.v.value != 0 {
        QuietStmtAgrees(c, body, r.env, room, fuel);
        var b := Exec(c, body, r.env, room, fuel);
        if b.Normal? && fuel > 0 {
          QuietStmtAgrees(c, s, b.env, room, fuel - 1);
        }
      }
    case Block(ss) => QuietStmtsAgree(c, ss, env, room, fuel);
    case Do(e) =>
      if e.CallFn? {
        assert EvalArgs(c, e.args, env, room, fuel) == Vals([], env) == EvalArgs(Promise(c), e.args, env, room, fuel);
        if fuel > 0 {
          QuietInvokeAgrees(c, e.f, env.mem, room, fuel - 1);
        }
      } else {
        QuietExprAgrees(c, e, env, room, fuel);
      }
    case DeclInit(_, e) => QuietExprAgrees(c, e, env, room, fuel);
    case _ =>
  }

  lemma {:induction false} QuietStmtsAgree(c: Cfg, ss: Stmts<Place>, env: Env, room: nat, fuel: nat)
    requires Quiet(c) && QuietStmts(ss)
    ensures ExecAll(c, ss, env, room, fuel) == ExecAll(Promise(c), ss, env, room, fuel)
    decreases fuel, ss, 1
  {
    match ss
    case Nil =>
    case Cons(s, rest) =>
      QuietStmtAgrees(c, s, env, room, fuel);
      var r := Exec(c, s, env, room, fuel);
      if r.Normal? {
        QuietStmtsAgree(c, rest, r.env, room, fuel);
      }
  }

  /** The value of a discarded call may differ, its effect does not. */
  ghost predicate SameEffect(d: Done, d': Done) {
    if d.Failed? then d == d' else d'.Done? && d.mem == d'.mem
  }

  lemma {:induction false} QuietInvokeAgrees(c: Cfg, name: string, mem: Memory, room: nat, fuel: nat)
    requires Quiet(c)
    ensures SameEffect(Invoke(c, name, [], mem, room, fuel), Invoke(Promise(c), name, [], mem, room, fuel))
    decreases fuel
  {
    hide ExecAll;
    var found := c.Find(name);
    if found.Some? && room >= 2 + found.value.locals {
      var f := found.value;
      var vals := c.ParamValues(f, []);
      assert Spilled(0) == [];
      assert vals == Some([]) && Promise(c).ParamValues(f, []) == Some([]);
      QuietStmtsAgree(c, f.body, Env(Frame([]), mem), room - 2 - f.locals, fuel);
    }
  }

  /** Programs that use no call's value and pass no arguments do what the language promises. */
  lemma QuietProgramOk(c: Cfg, code: seq<Instr>, tab: Table, fuel: nat, s: State) returns (t: State)
    requires Loaded(c, code, tab) && Quiet(c) && s.pc == 0
    requires RunMain(Promise(c), s.mem, fuel).Done?
    ensures Reaches(code, s, t) && t.pc == 0xFFFF && Step(code, t).None? && t.regs[SP] == c.top && t.regs[0] == 0xFFFF
    ensures forall a: Word :: !(c.lo <= a < c.top) ==> t.mem[a] == RunMain(Promise(c), s.mem, fuel).mem[a]
  {
    hide CodeAt, Invoke, StartOps;
    QuietInvokeAgrees(c, "main", s.mem, c.top - c.lo, fuel);
    t := ProgramOk(c, code, tab, fuel, s);
  }

  /** int f() { return 7; }  int main() { __store16(a, f()); } */
  function Seven(a: Word): seq<Function> {
    [Function("f", 0, 0, Cons(Return(Num(7)), Nil)),
     Function("main", 0, 0, Cons(Do(Store(Num(a), CallFn("f", NoArgs))), Nil))]
  }

  lemma SevenRuns(c: Cfg, a: Word, mem: Memory)
    requires c.funcs == Seven(a) && c.Data(a) && c.lo + 5 <= c.top
    requires c.mode.Emitted? ==> "f" in c.mode.ends
    ensures var d := RunMain(c, mem, 1);
            d.Done? && d.mem == mem[a := if c.mode.Emitted? then c.mode.ends["f"] else 7]
  {
    hide Bits, Apply;
    var f, main := c.funcs[0], c.funcs[1];
    assert |"f"| != |"main"|;
    assert FindIn(c.funcs[1..], "main") == Some(main);
    assert c.Find("f") == Some(f) && c.Find("main") == Some(main);
    var room := c.top - c.lo - 2;
    var call: Expr<Place> := CallFn("f", NoArgs);
    var env := Env(Frame([]), mem);
    assert Spilled(0) == [];
    assert ExecAll(c, f.body, env, room - 3, 0) == Returned(Some(7), env);
    assert Invoke(c, "f", [], mem, room - 1, 0) == Done(c.ReturnValue("f", Some(7)), mem);
    var v := c.ReturnValue("f", Some(7));
    assert Eval(c, call, env, room - 1, 1) == Val(v, env);
    var store: Expr<Place> := Store(Num(a), call);
    var env' := env.(mem := mem[a := v.value]);
    assert Eval(c, store, env, room, 1) == Val(v, env');
    assert Exec(c, Do(store), env, room, 1) == Normal(env');
    assert ExecAll(c, main.body, env, room, 1) == Normal(env');
  }

  /** The promised program stores 7; the compiled one stores something else, wherever it is loaded. */
  lemma SevenIsNotStored(c: Cfg, code: seq<Instr>, tab: Table, a: Word, s: State) returns (t: State)
    requires Loaded(c, code, tab) && c.funcs == Seven(a) && c.Data(a) && c.lo + 5 <= c.top && s.pc == 0
    ensures RunMain(Promise(c), s.mem, 1).Done? && RunMain(Promise(c), s.mem, 1).mem[a] == 7
    ensures Reaches(code, s, t) && Step(code, t).None? && t.mem[a] == tab[End("f")] != 7
  {
    hide CodeAt, RunMain, FuncOps, StartOps, CompStmts;
    var f := c.funcs[0];
    assert c.Find("f") == Some(f);
    var n: nat :| CodeAt(code, tab[Func("f")], FuncOps(f, n), tab);
    FuncCode(code, tab, f, n);
    EntrySize(0);
    SevenRuns(c, a, s.mem);
    SevenRuns(Promise(c), a, s.mem);
    t := ProgramOk(c, code, tab, 1, s);
  }
}
