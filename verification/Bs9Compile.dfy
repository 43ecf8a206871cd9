/** From the tokens of a program to the run of its words. */
module Bs9Compile {
  import opened Words
  import opened Bs9Isa
  import opened Bs9Ops
  import opened Bs9Source
  import opened Bs9Gen
  import opened Bs9Lower
  import opened Bs9Layout
  import opened Bs9Correct
  import opened Bs9Defined
  import opened Bs9Program
  import opened Bs9Token
  import opened Bs9ParseProgram

  lemma {:induction false} IndexFits(names: seq<string>, x: string)
    ensures IndexOf(names, x).Some? ==> IndexOf(names, x).value < |names|
  {
    if names != [] {
      IndexFits(names[1..], x);
    }
  }

  /** Without errors every slot lies in the frame and every call passes at most four arguments. */
  lemma {:induction false} ExprFits(e: Expr<string>, sc: Scope, n: nat)
    requires Faults(e, sc) == 0 && |sc.locals| <= n
    ensures FitsExpr(Resolve(e, sc), n)
    decreases e
  {
    match e
    case Num(_) =>
    case Var(x) => IndexFits(sc.locals, x);
    case Load(a) => ExprFits(a, sc, n);
    case Store(a, v) => ExprFits(a, sc, n); ExprFits(v, sc, n);
    case CallFn(_, args) => ArgsFit(args, sc, n);
    case Pos(e1) => ExprFits(e1, sc, n);
    case Paren(e1) => ExprFits(e1, sc, n);
    case Neg(e1) => ExprFits(e1, sc, n);
    case Compl(e1) => ExprFits(e1, sc, n);
    case Not(e1) => ExprFits(e1, sc, n);
    case Bin(_, l, r) => ExprFits(l, sc, n); ExprFits(r, sc, n);
    case Assign(x, e1) => IndexFits(sc.locals, x); ExprFits(e1, sc, n);
  }

  lemma {:induction false} ArgsFit(args: Exprs<string>, sc: Scope, n: nat)
    requires FaultsArgs(args, sc) == 0 && |sc.locals| <= n
    ensures FitsArgs(ResolveArgs(args, sc), n) && Count(ResolveArgs(args, sc)) == Length(args)
    decreases args
  {
    match args
    case NoArgs =>
    case Arg(e, rest) => ExprFits(e, sc, n); ArgsFit(rest, sc, n);
  }

  lemma {:induction false} LocalsGrow(s: Stmt<string>, locals: seq<string>)
    ensures |locals| <= |Locals(s, locals)|
    ensures |locals| <= MaxLocals ==> |Locals(s, locals)| <= MaxLocals
    decreases s
  {
    match s
    case If(_, thn) => LocalsGrow(thn, locals);
    case IfElse(_, thn, els) => LocalsGrow(thn, locals); LocalsGrow(els, Locals(thn, locals));
    case While(_, body) => LocalsGrow(body, locals);
    case Block(ss) => LocalsAllGrow(ss, locals);
    case _ =>
  }

  lemma {:induction false} LocalsAllGrow(ss: Stmts<string>, locals: seq<string>)
    ensures |locals| <= |LocalsAll(ss, locals)|
    ensures |locals| <= MaxLocals ==> |LocalsAll(ss, locals)| <= MaxLocals
    decreases ss
  {
    match ss
    case Nil =>
    case Cons(s, rest) => LocalsGrow(s, locals); LocalsAllGrow(rest, Locals(s, locals));
  }

  lemma {:induction false} StmtFits(s: Stmt<string>, sc: Scope, n: nat)
    requires FaultsStmt(s, sc) == 0 && |Locals(s, sc.locals)| <= n
    ensures FitsStmt(ResolveStmt(s, sc), n)
    decreases s
  {
    LocalsGrow(s, sc.locals);
    match s
    case Return(e) => ExprFits(e, sc, n);
    case If(e, thn) => ExprFits(e, sc, n); StmtFits(thn, sc, n);
    case IfElse(e, thn, els) =>
      var ls := Locals(thn, sc.locals);
      LocalsGrow(els, ls);
      ExprFits(e, sc, n); StmtFits(thn, sc, n); StmtFits(els, With(sc, ls), n);
    case While(e, body) => ExprFits(e, sc, n); StmtFits(body, sc, n);
    case Block(ss) => StmtsFit(ss, sc, n);
    case Do(e) => ExprFits(e, sc, n);
    case DeclInit(x, e) => ExprFits(e, With(sc, AddName(sc.locals, x)), n);
    case _ =>
  }

  lemma {:induction false} StmtsFit(ss: Stmts<string>, sc: Scope, n: nat)
    requires FaultsStmts(ss, sc) == 0 && |LocalsAll(ss, sc.locals)| <= n
    ensures FitsStmts(ResolveStmts(ss, sc), n)
    decreases ss
  {
    match ss
    case Nil =>
    case Cons(s, rest) =>
      LocalsAllGrow(rest, Locals(s, sc.locals));
      StmtFits(s, sc, n);
      StmtsFit(rest, With(sc, Locals(s, sc.locals)), n);
  }

  lemma {:induction false} ParamsShort(params: seq<string>, locals: seq<string>, count: nat)
    requires |locals| <= count <= MaxArgs
    ensures var (ls, n, f) := TakeParams(params, locals, count);
            |ls| <= n <= MaxArgs && (f == 0 && |locals| == count ==> |ls| == n)
    decreases |params|
  {
    if params != [] {
      var (ls, n, _) := TakeParam(params[0], locals, count);
      ParamsShort(params[1..], ls, n);
    }
  }

  lemma FunctionFits(d: Top, globals: map<string, Word>)
    requires d.Fun? && FaultsTop(d, globals) == 0
    ensures FitsFunction(FunctionOf(d, globals))
  {
    hide LocalsAll, TakeParams;
    ParamsShort(d.params, [], 0);
    var (ls, _, _) := TakeParams(d.params, [], 0);
    LocalsAllGrow(d.body, ls);
    StmtsFit(d.body, Scope(ls, globals), |LocalsAll(d.body, ls)|);
  }

  lemma {:induction false} ProgramFits(ds: seq<Top>, globals: map<string, Word>)
    requires FaultsAll(ds, globals) == 0
    ensures WellFormed(FuncsOf(ds, globals))
    decreases |ds|
  {
    hide FunctionOf, FaultsTop, GlobalsAfter, FitsFunction;
    if ds != [] {
      ProgramFits(ds[1..], GlobalsAfter(ds[0], globals));
      if ds[0].Fun? {
        FunctionFits(ds[0], globals);
      }
    }
  }

  predicate PrintableProgram(ds: seq<Top>) { forall d :: d in ds ==> PrintableTop(d) }

  /** What the parser makes of a program's tokens. */
  lemma {:induction false} ParsedProgram(ds: seq<Top>)
    requires PrintableProgram(ds)
    ensures var r, funcs := ParseAll(PrintProgram(ds), Start0), FuncsOf(ds, map[]);
            && r.pos == |PrintProgram(ds)| && r.errors == FaultsAll(ds, map[]) && r.units == UnitsOf(funcs)
            && (r.errors == 0 ==> WellFormed(funcs))
  {
    hide ParseAll, FuncsOf, FaultsAll, PrintProgram, WellFormed;
    var toks := PrintProgram(ds);
    assert toks[0..] == toks && UnitsOf([]) == [] && Labels([]) == 0;
    Bs9ParseProgram.ProgramOk(toks, Start0, ds, []);
    assert [] + FuncsOf(ds, map[]) == FuncsOf(ds, map[]);
    if FaultsAll(ds, map[]) == 0 {
      ProgramFits(ds, map[]);
    }
  }

  lemma FewOf(funcs: seq<Function>)
    requires WellFormed(funcs)
    ensures FewParams(funcs)
  {
  }

  /** The functions of a program whose tokens are read from the start, without globals before them. */
  function Functions(ds: seq<Top>): seq<Function> { FuncsOf(ds, map[]) }

  /** The tokens parse without an error; the labels made have different texts, one of them that of each called name;
      the words fit below the stack. */
  ghost predicate Compiles(ds: seq<Top>, lo: nat, top: Word, naming: Naming) {
    && PrintableProgram(ds) && ParseAll(PrintProgram(ds), Start0).errors == 0 && FewParams(Functions(ds))
    && var marks := Marks(CompProgram(Functions(ds), top));
    && Distinct(marks, naming) && (forall g :: g in Called(Functions(ds)) ==> Texted(Func(g), marks, naming))
    && Size(CompProgram(Functions(ds), top)) < lo <= top
  }

  lemma {:induction false} Lowered(ds: seq<Top>, lo: nat, top: Word, naming: Naming)
    requires Compiles(ds, lo, top, naming)
    ensures var funcs := Functions(ds);
            && WellFormed(funcs) && ParseAll(PrintProgram(ds), Start0).units == UnitsOf(funcs)
            && ItemsOf(funcs, top, naming).Some?
            && |CodeOf(ItemsOf(funcs, top, naming).value)| == Size(CompProgram(funcs, top)) < lo <= top
            && Distinct(Marks(CompProgram(funcs, top)), naming)
  {
    hide ParseAll, FuncsOf, PrintProgram, CodeOf, FitsFunction, UnitsOf, PrintableProgram, Called, CompProgram, EmitOps,
      Record, Marks, Distinct, Texted;
    var funcs := Functions(ds);
    ParsedProgram(ds);
    LowersIff(funcs, top, naming);
    PassesAgree(CompProgram(funcs, top), 0, 0, TableOf(funcs, top, naming), naming);
  }

  /** The whole compiler: tokens that compile are lowered, and the words run on the machine as the tree does in the
      interpreter, calls delivering the addresses of the epilogues. */
  lemma TokensToRun(ds: seq<Top>, lo: nat, top: Word, naming: Naming, fuel: nat, s: State) returns (c: Cfg, t: State)
    requires Compiles(ds, lo, top, naming) && s.pc == 0
    ensures var funcs := Functions(ds);
            && WellFormed(funcs) && ParseAll(PrintProgram(ds), Start0).units == UnitsOf(funcs)
            && ItemsOf(funcs, top, naming).Some? && Defined(funcs, TableOf(funcs, top, naming))
            && var code := CodeOf(ItemsOf(funcs, top, naming).value);
            && c == CfgOf(funcs, code, TableOf(funcs, top, naming), lo, top)
            && (RunMain(c, s.mem, fuel).Done? ==>
                 && Reaches(code, s, t) && t.pc == 0xFFFF && Step(code, t).None?
                 && t.regs[SP] == top && t.regs[0] == 0xFFFF
                 && forall a: Word :: !(lo <= a < top) ==> t.mem[a] == RunMain(c, s.mem, fuel).mem[a])
  {
    hide Compiles, Functions, ParseAll, PrintProgram, ItemsOf, TableOf, CodeOf, RunMain, Reaches, Step, UnitsOf,
      WellFormed, CompProgram, Marks, Distinct;
    Lowered(ds, lo, top, naming);
    c, t := CompilerOk(Functions(ds), lo, top, naming, fuel, s);
  }

  predicate QuietProgram(funcs: seq<Function>) { forall f :: f in funcs ==> f.params == 0 && QuietStmts(f.body) }

  /** And what it promises: a program that uses no call's value and passes no arguments, `return` included, ends with the
      memory the language gives it. */
  lemma QuietTokensToRun(ds: seq<Top>, lo: nat, top: Word, naming: Naming, fuel: nat, s: State) returns (t: State)
    requires Compiles(ds, lo, top, naming) && QuietProgram(Functions(ds)) && s.pc == 0
    ensures var funcs := Functions(ds);
            && ItemsOf(funcs, top, naming).Some?
            && var code := CodeOf(ItemsOf(funcs, top, naming).value);
            && |code| < lo <= top
            && var d := RunMain(Cfg(funcs, |code|, lo, top, Promised), s.mem, fuel);
            d.Done? ==>
              && Reaches(code, s, t) && t.pc == 0xFFFF && Step(code, t).None?
              && t.regs[SP] == top && t.regs[0] == 0xFFFF
              && forall a: Word :: !(lo <= a < top) ==> t.mem[a] == d.mem[a]
  {
    hide Compiles, Functions, ParseAll, PrintProgram, ItemsOf, TableOf, CodeOf, RunMain, Reaches, Step, UnitsOf,
      WellFormed, CompProgram, Marks, Distinct, QuietProgram, Quiet, Loaded;
    Lowered(ds, lo, top, naming);
    var funcs := Functions(ds);
    FewOf(funcs);
    var code, tab := CodeOf(ItemsOf(funcs, top, naming).value), TableOf(funcs, top, naming);
    CompiledIsLoaded(funcs, lo, top, naming);
    var c := CfgOf(funcs, code, tab, lo, top);
    AllQuiet(c);
    t := s;
    if RunMain(Promise(c), s.mem, fuel).Done? {
      t := QuietProgramOk(c, code, tab, fuel, s);
    }
  }

  lemma AllQuiet(c: Cfg)
    requires QuietProgram(c.funcs)
    ensures Quiet(c)
  {
    hide QuietStmts;
    forall name | c.Find(name).Some?
      ensures c.Find(name).value in c.funcs
    {
      FoundInside(c.funcs, name);
    }
  }

  lemma {:induction false} FoundInside(funcs: seq<Function>, name: string)
    requires FindIn(funcs, name).Some?
    ensures FindIn(funcs, name).value in funcs
  {
    if funcs[0].name != name {
      FoundInside(funcs[1..], name);
    }
  }
}
