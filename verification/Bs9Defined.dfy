/** When the compiler stops with an undefined label: exactly when main or a called function is missing. */
module Bs9Defined {
  import opened Options
  import opened Words
  import opened Bs9Isa
  import opened Bs9Ops
  import opened Bs9Source
  import opened Bs9Gen
  import opened Bs9Lower
  import opened Bs9Layout

  // ----- the functions a program calls -----

  function CallsExpr<V>(e: Expr<V>): set<string> {
    match e
    case Num(_) => {}
    case Var(_) => {}
    case Load(a) => CallsExpr(a)
    case Store(a, v) => CallsExpr(a) + CallsExpr(v)
    case CallFn(f, args) => CallsArgs(args) + {f}
    case Pos(e1) => CallsExpr(e1)
    case Paren(e1) => CallsExpr(e1)
    case Neg(e1) => CallsExpr(e1)
    case Compl(e1) => CallsExpr(e1)
    case Not(e1) => CallsExpr(e1)
    case Bin(_, l, r) => CallsExpr(l) + CallsExpr(r)
    case Assign(_, e1) => CallsExpr(e1)
  }

  function CallsArgs<V>(args: Exprs<V>): set<string> {
    match args
    case NoArgs => {}
    case Arg(e, rest) => CallsExpr(e) + CallsArgs(rest)
  }

  function CallsStmt<V>(s: Stmt<V>): set<string> {
    match s
    case Return(e) => CallsExpr(e)
    case If(e, thn) => CallsExpr(e) + CallsStmt(thn)
    case IfElse(e, thn, els) => CallsExpr(e) + CallsStmt(thn) + CallsStmt(els)
    case While(e, body) => CallsExpr(e) + CallsStmt(body)
    case Block(ss) => CallsStmts(ss)
    case Do(e) => CallsExpr(e)
    case DeclInit(_, e) => CallsExpr(e)
    case _ => {}
  }

  function CallsStmts<V>(ss: Stmts<V>): set<string> {
    match ss
    case Nil => {}
    case Cons(s, rest) => CallsStmt(s) + CallsStmts(rest)
  }

  function CallsAll(funcs: seq<Function>): set<string> {
    if funcs == [] then {} else CallsAll(funcs[..|funcs| - 1]) + CallsStmts(funcs[|funcs| - 1].body)
  }

  predicate Declares(funcs: seq<Function>, name: string) { exists f :: f in funcs && f.name == name }

  // ----- every jump of the compiler's operations finds its label -----

  predicate Known(l: Bs9Ops.Label, ops: seq<Op>, open: set<Bs9Ops.Label>, calls: set<string>) {
    Mark(l) in ops || l in open || (l.Func? && l.name in calls)
  }

  /** Jumps go to labels of the operations or to open ones; the calls are those to the named functions. */
  ghost predicate Closed(ops: seq<Op>, open: set<Bs9Ops.Label>, calls: set<string>) {
    && (forall op :: op in ops ==> !op.Comment? && !op.JmpRel?)
    && (forall op :: op in ops && Target(op).Some? ==> Known(Target(op).value, ops, open, calls))
    && (forall g :: g in calls ==> Call(Func(g)) in ops)
  }

  lemma ClosedAppend(a: seq<Op>, o: set<Bs9Ops.Label>, c: set<string>, b: seq<Op>, p: set<Bs9Ops.Label>, d: set<string>)
    requires Closed(a, o, c) && Closed(b, p, d)
    ensures Closed(a + b, o + p, c + d)
  {
    hide Target;
    forall op | op in a + b && Target(op).Some? ensures Known(Target(op).value, a + b, o + p, c + d) {
      if op in a {
        assert Known(Target(op).value, a, o, c);
      } else {
        assert op in b && Known(Target(op).value, b, p, d);
      }
    }
    forall g | g in c + d ensures Call(Func(g)) in a + b {
      assert g in c || g in d;
    }
  }

  /** A label that is marked need not be open. */
  lemma Close(ops: seq<Op>, open: set<Bs9Ops.Label>, calls: set<string>, less: set<Bs9Ops.Label>)
    requires Closed(ops, open, calls) && forall l :: l in open ==> l in less || Mark(l) in ops
    ensures Closed(ops, less, calls)
  {
    forall op | op in ops && Target(op).Some? ensures Known(Target(op).value, ops, less, calls) {
      assert Known(Target(op).value, ops, open, calls);
    }
  }

  lemma {:induction false} ClosedPlain(block: seq<Instr>)
    ensures Closed(Plain(block), {}, {})
  {
  }

  lemma ClosedOne(op: Op)
    requires !op.Comment? && !op.JmpRel? && !op.Call?
    ensures Closed([op], if Target(op).Some? then {Target(op).value} else {}, {})
  {
  }

  lemma ClosedCall(g: string)
    ensures Closed([Call(Func(g))], {}, {g})
  {
  }

  lemma ClosedBin(op: BinOp)
    ensures Closed(BinCode(op), {}, {})
  {
  }

  lemma ClosedUnary(op: UnaryOp)
    ensures Closed(UnaryCode(op), {}, {})
  {
    match op
    case LoadOp => ClosedPlain([CpyRR(8, 0), CpyRM(0, 8)]);
    case NegOp => ClosedPlain(ThroughR2(0, SubRR(0, 2)));
    case ComplOp => ClosedPlain(ThroughR2(0xFFFF, XorR0(2)));
    case NotOp => ClosedOne(BoolNot);
  }

  /** Operations followed by others that neither jump nor call. */
  lemma ClosedThen(a: seq<Op>, o: set<Bs9Ops.Label>, c: set<string>, b: seq<Op>)
    requires Closed(a, o, c) && Closed(b, {}, {})
    ensures Closed(a + b, o, c) && Closed(b + a, o, c)
  {
    ClosedAppend(a, o, c, b, {}, {});
    ClosedAppend(b, {}, {}, a, o, c);
    assert o + {} == o == {} + o && c + {} == c == {} + c;
  }

  lemma ClosedPair(a: seq<Op>, c: set<string>, b: seq<Op>, d: set<string>)
    requires Closed(a, {}, c) && Closed(b, {}, d)
    ensures Closed(a + Plain(Push) + b, {}, c + d)
  {
    hide Closed;
    ClosedPlain(Push);
    ClosedThen(a, {}, c, Plain(Push));
    ClosedJoin(a + Plain(Push), {}, c, b, {}, d, {});
  }

  lemma {:induction false} ClosedExpr(e: Expr<Place>)
    ensures Closed(CompExpr(e), {}, CallsExpr(e))
    decreases e
  {
    hide Closed, Push, PopLeft, StoreThroughStack, ReadVar, WriteVar, Const, BinCode, UnaryCode, Pops, Plain;
    match e
    case Num(v) => ClosedPlain(Const(v));
    case Var(x) => ClosedPlain(ReadVar(x));
    case Load(a) => ClosedExpr(a); ClosedUnary(LoadOp); ClosedThen(CompExpr(a), {}, CallsExpr(a), UnaryCode(LoadOp));
    case Store(a, v) =>
      ClosedExpr(a); ClosedExpr(v); ClosedPlain(StoreThroughStack);
      ClosedPair(CompExpr(a), CallsExpr(a), CompExpr(v), CallsExpr(v));
      ClosedThen(CompExpr(a) + Plain(Push) + CompExpr(v), {}, CallsExpr(e), Plain(StoreThroughStack));
    case CallFn(f, args) =>
      ClosedArgs(args);
      var pops := Plain(Pops(Capped(Count(args))));
      ClosedPlain(Pops(Capped(Count(args))));
      ClosedThen(CompArgs(args), {}, CallsArgs(args), pops);
      ClosedCall(f);
      ClosedJoin(CompArgs(args) + pops, {}, CallsArgs(args), [Call(Func(f))], {}, {f}, {});
    case Pos(e1) => ClosedExpr(e1);
    case Paren(e1) => ClosedExpr(e1);
    case Neg(e1) => ClosedExpr(e1); ClosedUnary(NegOp); ClosedThen(CompExpr(e1), {}, CallsExpr(e1), UnaryCode(NegOp));
    case Compl(e1) =>
      ClosedExpr(e1); ClosedUnary(ComplOp); ClosedThen(CompExpr(e1), {}, CallsExpr(e1), UnaryCode(ComplOp));
    case Not(e1) => ClosedExpr(e1); ClosedUnary(NotOp); ClosedThen(CompExpr(e1), {}, CallsExpr(e1), UnaryCode(NotOp));
    case Bin(op, l, r) =>
      ClosedExpr(l); ClosedExpr(r); ClosedPlain(PopLeft); ClosedBin(op);
      var pair := CompExpr(l) + Plain(Push) + CompExpr(r);
      ClosedPair(CompExpr(l), CallsExpr(l), CompExpr(r), CallsExpr(r));
      ClosedThen(pair, {}, CallsExpr(e), Plain(PopLeft));
      ClosedThen(pair + Plain(PopLeft), {}, CallsExpr(e), BinCode(op));
    case Assign(x, e1) =>
      ClosedExpr(e1); ClosedPlain(WriteVar(x));
      ClosedThen(CompExpr(e1), {}, CallsExpr(e1), Plain(WriteVar(x)));
  }

  lemma {:induction false} ClosedArgs(args: Exprs<Place>)
    ensures Closed(CompArgs(args), {}, CallsArgs(args))
    decreases args
  {
    hide Push, Plain;
    match args
    case NoArgs =>
    case Arg(e, rest) =>
      ClosedExpr(e);
      ClosedArgs(rest);
      ClosedPair(CompExpr(e), CallsExpr(e), CompArgs(rest), CallsArgs(rest));
  }

  /** One jump or label more. */
  lemma ClosedSnoc(a: seq<Op>, o: set<Bs9Ops.Label>, c: set<string>, op: Op, p: set<Bs9Ops.Label>)
    requires Closed(a, o, c) && !op.Comment? && !op.JmpRel? && !op.Call?
    requires forall l :: l in o ==> l in p || op == Mark(l)
    requires Target(op).Some? ==> Target(op).value in p || Mark(Target(op).value) in a
    ensures Closed(a + [op], p, c)
  {
    ClosedOne(op);
    var t := if Target(op).Some? then {Target(op).value} else {};
    ClosedAppend(a, o, c, [op], t, {});
    assert c + {} == c;
    Close(a + [op], o + t, c, p);
  }

  lemma ClosedJoin(a: seq<Op>, o: set<Bs9Ops.Label>, c: set<string>, b: seq<Op>, p: set<Bs9Ops.Label>, d: set<string>,
                   q: set<Bs9Ops.Label>)
    requires Closed(a, o, c) && Closed(b, p, d) && o <= q && p <= q
    ensures Closed(a + b, q, c + d)
  {
    ClosedAppend(a, o, c, b, p, d);
    Close(a + b, o + p, c + d, q);
  }

  lemma {:induction false} ClosedStmt(s: Stmt<Place>, fn: string, n: nat)
    ensures Closed(CompStmt(s, fn, n), {End(fn)}, CallsStmt(s))
    decreases s
  {
    hide Closed, CompExpr, Plain, WriteVar;
    match s
    case Return(e) => ClosedExpr(e); ClosedSnoc(CompExpr(e), {}, CallsExpr(e), Jabs(End(fn)), {End(fn)});
    case If(e, thn) =>
      ClosedExpr(e); ClosedStmt(thn, fn, n + 2);
      ClosedIf(CompExpr(e), CallsExpr(e), CompStmt(thn, fn, n + 2), CallsStmt(thn), fn, n);
    case IfElse(e, thn, els) =>
      var m := n + 2 + LabelCount(thn);
      ClosedExpr(e); ClosedStmt(thn, fn, n + 2); ClosedStmt(els, fn, m);
      ClosedIfElse(CompExpr(e), CallsExpr(e), CompStmt(thn, fn, n + 2), CallsStmt(thn),
                   CompStmt(els, fn, m), CallsStmt(els), fn, n);
    case While(e, body) =>
      ClosedExpr(e); ClosedStmt(body, fn, n + 2);
      ClosedWhile(CompExpr(e), CallsExpr(e), CompStmt(body, fn, n + 2), CallsStmt(body), fn, n);
    case Block(ss) => ClosedStmts(ss, fn, n);
    case Do(e) => ClosedExpr(e); ClosedMore(CompExpr(e), CallsExpr(e), fn);
    case Empty => ClosedOne(Nop); ClosedMore([Nop], {}, fn);
    case Decl(_) => ClosedNone({End(fn)});
    case DeclInit(x, e) =>
      ClosedExpr(e); ClosedPlain(WriteVar(x));
      ClosedThen(CompExpr(e), {}, CallsExpr(e), Plain(WriteVar(x)));
      ClosedMore(CompExpr(e) + Plain(WriteVar(x)), CallsExpr(e), fn);
  }

  lemma ClosedIf(x: seq<Op>, cx: set<string>, a: seq<Op>, ca: set<string>, fn: string, n: nat)
    requires Closed(x, {}, cx) && Closed(a, {End(fn)}, ca)
    ensures Closed(x + [JabsIfZero(Else(n))] + a + [Mark(Else(n))], {End(fn)}, cx + ca)
  {
    hide Closed;
    var head, all := x + [JabsIfZero(Else(n))], {Else(n), End(fn)};
    ClosedSnoc(x, {}, cx, JabsIfZero(Else(n)), {Else(n)});
    ClosedJoin(head, {Else(n)}, cx, a, {End(fn)}, ca, all);
    ClosedSnoc(head + a, all, cx + ca, Mark(Else(n)), {End(fn)});
  }

  lemma ClosedIfElse(x: seq<Op>, cx: set<string>, a: seq<Op>, ca: set<string>, b: seq<Op>, cb: set<string>,
                     fn: string, n: nat)
    requires Closed(x, {}, cx) && Closed(a, {End(fn)}, ca) && Closed(b, {End(fn)}, cb)
    ensures Closed(x + [JabsIfZero(Else(n))] + a + [Jabs(IfEnd(n + 1))] + [Mark(Else(n))] + b + [Mark(IfEnd(n + 1))],
                   {End(fn)}, cx + ca + cb)
  {
    hide Closed;
    var head, c := x + [JabsIfZero(Else(n))], cx + ca;
    var all, last := {Else(n), IfEnd(n + 1), End(fn)}, {IfEnd(n + 1), End(fn)};
    ClosedSnoc(x, {}, cx, JabsIfZero(Else(n)), {Else(n)});
    ClosedJoin(head, {Else(n)}, cx, a, {End(fn)}, ca, all);
    ClosedSnoc(head + a, all, c, Jabs(IfEnd(n + 1)), all);
    ClosedSnoc(head + a + [Jabs(IfEnd(n + 1))], all, c, Mark(Else(n)), last);
    var front := head + a + [Jabs(IfEnd(n + 1))] + [Mark(Else(n))];
    ClosedJoin(front, last, c, b, {End(fn)}, cb, last);
    ClosedSnoc(front + b, last, c + cb, Mark(IfEnd(n + 1)), {End(fn)});
  }

  lemma ClosedWhile(x: seq<Op>, cx: set<string>, a: seq<Op>, ca: set<string>, fn: string, n: nat)
    requires Closed(x, {}, cx) && Closed(a, {End(fn)}, ca)
    ensures Closed([Mark(Top(n))] + (x + [JabsIfZero(Wend(n + 1))]) + a + [Jabs(Top(n))] + [Mark(Wend(n + 1))],
                   {End(fn)}, cx + ca)
  {
    hide Closed;
    var head, top, all := x + [JabsIfZero(Wend(n + 1))], [Mark(Top(n))], {Wend(n + 1), End(fn)};
    ClosedSnoc(x, {}, cx, JabsIfZero(Wend(n + 1)), {Wend(n + 1)});
    ClosedOne(Mark(Top(n)));
    ClosedThen(head, {Wend(n + 1)}, cx, top);
    ClosedJoin(top + head, {Wend(n + 1)}, cx, a, {End(fn)}, ca, all);
    ClosedSnoc(top + head + a, all, cx + ca, Jabs(Top(n)), all);
    ClosedSnoc(top + head + a + [Jabs(Top(n))], all, cx + ca, Mark(Wend(n + 1)), {End(fn)});
  }

  lemma ClosedMore(ops: seq<Op>, c: set<string>, fn: string)
    requires Closed(ops, {}, c)
    ensures Closed(ops, {End(fn)}, c)
  {
    Close(ops, {}, c, {End(fn)});
  }

  lemma ClosedNone(open: set<Bs9Ops.Label>)
    ensures Closed([], open, {})
  {
  }

  lemma {:induction false} ClosedStmts(ss: Stmts<Place>, fn: string, n: nat)
    ensures Closed(CompStmts(ss, fn, n), {End(fn)}, CallsStmts(ss))
    decreases ss
  {
    hide Closed, CompStmt;
    match ss
    case Nil => ClosedNone({End(fn)});
    case Cons(s, rest) =>
      var m := n + LabelCount(s);
      ClosedStmt(s, fn, n);
      ClosedStmts(rest, fn, m);
      ClosedJoin(CompStmt(s, fn, n), {End(fn)}, CallsStmt(s), CompStmts(rest, fn, m), {End(fn)}, CallsStmts(rest), {End(fn)});
  }

  lemma ClosedFunc(f: Function, n: nat)
    requires f.params <= MaxArgs
    ensures Closed(FuncOps(f, n), {}, CallsStmts(f.body))
  {
    hide Closed, CompStmts, Prologue, Plain;
    var body, c := CompStmts(f.body, f.name, n), CallsStmts(f.body);
    ClosedStmts(f.body, f.name, n);
    ClosedSnoc(body, {End(f.name)}, c, Mark(End(f.name)), {});
    ClosedSnoc(body + [Mark(End(f.name))], {}, c, Ret, {});
    assert BodyOps(f, n) == body + [Mark(End(f.name))] + [Ret];
    ClosedPlain(Prologue(f));
    ClosedOne(Mark(Func(f.name)));
    var head := [Mark(Func(f.name))] + Plain(Prologue(f));
    ClosedThen([Mark(Func(f.name))], {}, {}, Plain(Prologue(f)));
    ClosedThen(BodyOps(f, n), {}, c, head);
  }

  lemma ClosedStub(top: Word)
    ensures Closed([Mark(Start)] + StartOps(top), {}, {"main"})
  {
    hide Closed, Plain;
    var block := Const(top) + [CpyRR(SP, 0)];
    ClosedPlain(block);
    ClosedCall("main");
    ClosedThen([Call(Func("main"))], {}, {"main"}, Plain(block));
    ClosedSnoc(Plain(block) + [Call(Func("main"))], {}, {"main"}, Halt, {});
    assert StartOps(top) == Plain(block) + [Call(Func("main"))] + [Halt];
    ClosedOne(Mark(Start));
    ClosedThen(StartOps(top), {}, {"main"}, [Mark(Start)]);
  }

  lemma {:induction false} ClosedUnits(funcs: seq<Function>, k: nat)
    requires FewParams(funcs) && k <= |funcs|
    ensures |UnitsOf(funcs)| == |funcs| && forall u :: u in UnitsOf(funcs) ==> u.params <= MaxArgs
    ensures Closed(AllUnitOps(UnitsOf(funcs)[..k]), {}, CallsAll(funcs[..k]))
  {
    hide Closed, UnitOps, FuncOps, UnitsOf, CallsStmts;
    var us := UnitsOf(funcs);
    UnitsFew(funcs);
    if k == 0 {
      ClosedNone({});
    } else {
      ClosedUnits(funcs, k - 1);
      var f, n := funcs[k - 1], Labels(funcs[..k - 1]);
      UnitIsFunc(funcs, k - 1);
      ClosedFunc(f, n);
      assert us[..k][..k - 1] == us[..k - 1] && us[..k][k - 1] == us[k - 1];
      assert funcs[..k][..k - 1] == funcs[..k - 1];
      ClosedJoin(AllUnitOps(us[..k - 1]), {}, CallsAll(funcs[..k - 1]), UnitOps(us[k - 1]), {}, CallsStmts(f.body), {});
    }
  }

  lemma {:induction false} ClosedProgram(funcs: seq<Function>, top: Word)
    requires FewParams(funcs)
    ensures Closed(CompProgram(funcs, top), {}, {"main"} + CallsAll(funcs))
  {
    hide Closed, StartOps, AllUnitOps, UnitsOf;
    ClosedStub(top);
    ClosedUnits(funcs, |funcs|);
    assert UnitsOf(funcs)[..|funcs|] == UnitsOf(funcs) && funcs[..|funcs|] == funcs;
    ClosedJoin([Mark(Start)] + StartOps(top), {}, {"main"}, AllUnitOps(UnitsOf(funcs)), {}, CallsAll(funcs), {});
  }

  // ----- the labels of functions -----

  lemma {:induction false} InMarks(ops: seq<Op>, l: Bs9Ops.Label)
    ensures Mark(l) in ops <==> l in Marks(ops)
    decreases |ops|
  {
    if ops != [] {
      InMarks(ops[1..], l);
      assert ops == [ops[0]] + ops[1..];
      MarksCons(ops[0], ops[1..]);
    }
  }

  lemma {:induction false} FunctionMarked(funcs: seq<Function>, f: Function, us: seq<Unit>, k: nat)
    requires FewParams(funcs) && us == UnitsOf(funcs) && k <= |funcs| && f in funcs[..k]
    requires |us| == |funcs| && forall u :: u in us ==> u.params <= MaxArgs
    ensures Mark(Func(f.name)) in AllUnitOps(us[..k])
  {
    hide UnitsOf, FuncOps;
    var last := funcs[k - 1];
    assert us[..k][..k - 1] == us[..k - 1] && us[..k][k - 1] == us[k - 1];
    if f == last {
      UnitIsFunc(funcs, k - 1);
      FuncHead(last, Labels(funcs[..k - 1]));
    } else {
      assert funcs[..k] == funcs[..k - 1] + [last];
      FunctionMarked(funcs, f, us, k - 1);
    }
  }

  lemma FuncHead(f: Function, n: nat)
    requires f.params <= MaxArgs
    ensures Mark(Func(f.name)) in FuncOps(f, n)
  {
    assert FuncOps(f, n)[0] == Mark(Func(f.name));
  }

  lemma {:induction false} FunctionLabels(funcs: seq<Function>, top: Word, g: string)
    requires FewParams(funcs)
    ensures Func(g) in Marks(CompProgram(funcs, top)) <==> Declares(funcs, g)
  {
    hide AllUnitOps, UnitsOf, Marks, StartOps, Labels;
    var us := UnitsOf(funcs);
    UnitsFew(funcs);
    MarksStub(top);
    MarksAppend([Mark(Start)] + StartOps(top), AllUnitOps(us));
    MarksUnits(funcs, |funcs|);
    assert us[..|funcs|] == us && funcs[..|funcs|] == funcs;
    InMarks(AllUnitOps(us), Func(g));
    if Declares(funcs, g) {
      var f :| f in funcs && f.name == g;
      FunctionMarked(funcs, f, us, |funcs|);
    }
    if Func(g) in Marks(AllUnitOps(us)) {
      assert Earlier(Func(g), funcs, |funcs|);
    }
  }

  /** One more function's labels are new exactly if its name is. */
  lemma {:induction false} UnitMarks(funcs: seq<Function>, k: nat)
    requires FewParams(funcs) && k < |funcs|
    ensures var us := UnitsOf(funcs);
            && |us| == |funcs| && (forall u :: u in us ==> u.params <= MaxArgs) && NoDup(Marks(UnitOps(us[k])))
            && (FirstOfName(funcs, k) <==> forall l :: l in Marks(UnitOps(us[k])) ==> l !in Marks(AllUnitOps(us[..k])))
  {
    hide UnitsOf, FuncOps, Marks, NoDup, UnitOps, UnitOf, AllUnitOps;
    var us, f, n := UnitsOf(funcs), funcs[k], Labels(funcs[..k]);
    UnitsFew(funcs);
    UnitIsFunc(funcs, k);
    MarksFunc(f, n);
    MarksUnits(funcs, k);
    FuncHead(f, n);
    InMarks(FuncOps(f, n), Func(f.name));
    InMarks(AllUnitOps(us[..k]), Func(f.name));
    if i :| 0 <= i < k && funcs[i].name == f.name {
      assert funcs[i] in funcs[..k];
      FunctionMarked(funcs, funcs[i], us, k);
    }
  }

  lemma NoDupSplit(a: seq<Bs9Ops.Label>, b: seq<Bs9Ops.Label>)
    ensures NoDup(a + b) <==> NoDup(a) && NoDup(b) && forall l :: l in b ==> l !in a
  {
    var c := a + b;
    assert (forall i :: 0 <= i < |a| ==> c[i] == a[i]) && (forall i :: 0 <= i < |b| ==> c[|a| + i] == b[i]);
    if NoDup(c) {
      forall i, j | 0 <= i < j < |b|
        ensures b[i] != b[j]
      {
        assert c[|a| + i] != c[|a| + j];
      }
      forall i, j | 0 <= i < j < |a|
        ensures a[i] != a[j]
      {
        assert c[i] != c[j];
      }
    } else if NoDup(a) && NoDup(b) && forall l :: l in b ==> l !in a {
      NoDupAppend(a, b);
    }
  }

  lemma {:induction false} UnitsMarks(funcs: seq<Function>, k: nat)
    requires FewParams(funcs) && k <= |funcs|
    ensures |UnitsOf(funcs)| == |funcs| && forall u :: u in UnitsOf(funcs) ==> u.params <= MaxArgs
    ensures NoDup(Marks(AllUnitOps(UnitsOf(funcs)[..k]))) <==> forall j :: 0 <= j < k ==> FirstOfName(funcs, j)
  {
    hide UnitsOf, FuncOps, Marks, NoDup, UnitOps, UnitOf, FirstOfName;
    var us := UnitsOf(funcs);
    UnitsFew(funcs);
    if k == 0 {
      MarksNone();
      NoDupNone();
    } else {
      UnitsMarks(funcs, k - 1);
      UnitMarks(funcs, k - 1);
      assert us[..k][..k - 1] == us[..k - 1] && us[..k][k - 1] == us[k - 1];
      MarksAppend(AllUnitOps(us[..k - 1]), UnitOps(us[k - 1]));
      NoDupSplit(Marks(AllUnitOps(us[..k - 1])), Marks(UnitOps(us[k - 1])));
    }
  }

  lemma NoDupNone()
    ensures NoDup([])
  {
  }

  /** All labels of a program are different exactly when no two functions have one name. */
  lemma {:induction false} ProgramLabels(funcs: seq<Function>, top: Word)
    requires FewParams(funcs)
    ensures NoDup(Marks(CompProgram(funcs, top))) <==> forall k :: 0 <= k < |funcs| ==> FirstOfName(funcs, k)
  {
    hide AllUnitOps, UnitsOf, Marks, StartOps, Labels, NoDup, FirstOfName;
    var us := UnitsOf(funcs);
    UnitsMarks(funcs, |funcs|);
    MarksUnits(funcs, |funcs|);
    assert us[..|funcs|] == us;
    MarksStub(top);
    MarksAppend([Mark(Start)] + StartOps(top), AllUnitOps(us));
    NoDupSplit([Start], Marks(AllUnitOps(us)));
    OneLabel();
  }

  lemma OneLabel()
    ensures NoDup([Start])
  {
  }

  // ----- the theorem -----

  lemma {:induction false} EmitsIf(ops: seq<Op>, pos: nat, tab: Table, naming: Naming)
    requires forall op :: op in ops ==> !op.Comment? && !op.JmpRel?
    ensures EmitOps(ops, pos, tab, naming).Some? <==>
            forall op :: op in ops && Target(op).Some? ==> Target(op).value in tab
    decreases |ops|
  {
    hide OpItems, Target;
    if ops != [] {
      EmitsIf(ops[1..], pos + OpSize(ops[0]), tab, naming);
      assert ops[0] in ops;
      assert forall op :: op in ops <==> op == ops[0] || op in ops[1..];
      LowerableIs(ops[0], pos, tab);
    }
  }

  lemma LowerableIs(op: Op, pos: nat, tab: Table)
    requires !op.Comment? && !op.JmpRel?
    ensures Lowerable(op, pos, tab) <==> (Target(op).Some? ==> Target(op).value in tab)
  {
  }

  /** The names the program calls, the start-up code included. */
  function Called(funcs: seq<Function>): set<string> { {"main"} + CallsAll(funcs) }

  /** The compiler produces a program exactly when the text of every called name is the text of some label it makes,
      a function's or one of its own. */
  lemma {:induction false} LowersIff(funcs: seq<Function>, top: Word, naming: Naming)
    requires FewParams(funcs)
    ensures ItemsOf(funcs, top, naming).Some? <==>
            forall g :: g in Called(funcs) ==> Texted(Func(g), Marks(CompProgram(funcs, top)), naming)
  {
    hide EmitOps, Record, Marks, CompProgram, Target, CallsAll, Texted;
    var ops, tab := CompProgram(funcs, top), TableOf(funcs, top, naming);
    ClosedProgram(funcs, top);
    EmitsIf(ops, 0, tab, naming);
    RecordGrows(imap[], ops, 0, naming);
    if forall g :: g in Called(funcs) ==> Texted(Func(g), Marks(ops), naming) {
      forall op | op in ops && Target(op).Some? ensures Target(op).value in tab {
        var l := Target(op).value;
        assert Known(l, ops, {}, Called(funcs));
        if Mark(l) in ops {
          InMarks(ops, l);
          OwnText(l, Marks(ops), naming);
        }
      }
    }
    if ItemsOf(funcs, top, naming).Some? {
      forall g | g in Called(funcs) ensures Texted(Func(g), Marks(ops), naming) {
        assert Call(Func(g)) in ops;
        CallTarget(g);
      }
    }
  }

  lemma OwnText(l: Bs9Ops.Label, ls: seq<Bs9Ops.Label>, naming: Naming)
    requires l in ls
    ensures Texted(l, ls, naming)
  {
  }

  /** No called name has the text of a label other than its function's. */
  ghost predicate CallsApart(funcs: seq<Function>, top: Word, naming: Naming)
    requires FewParams(funcs)
  {
    forall g, l :: g in Called(funcs) && l in Marks(CompProgram(funcs, top)) && naming(l) == naming(Func(g)) ==>
      l == Func(g)
  }

  /** Then it produces a program exactly when there is a function main and every called function is declared. */
  lemma {:induction false} LowersIfDeclared(funcs: seq<Function>, top: Word, naming: Naming)
    requires FewParams(funcs) && CallsApart(funcs, top, naming)
    ensures ItemsOf(funcs, top, naming).Some? <==> forall g :: g in Called(funcs) ==> Declares(funcs, g)
  {
    hide ItemsOf, Marks, CompProgram, Called, Declares;
    LowersIff(funcs, top, naming);
    forall g | g in Called(funcs)
      ensures Texted(Func(g), Marks(CompProgram(funcs, top)), naming) <==> Declares(funcs, g)
    {
      FunctionLabels(funcs, top, g);
      if Declares(funcs, g) {
        OwnText(Func(g), Marks(CompProgram(funcs, top)), naming);
      }
    }
  }

  /** A program that calls a function it does not declare and is compiled all the same: the name is the text of
      main's own return label. */
  lemma {:induction false} UndeclaredLowers(top: Word, naming: Naming)
    requires naming(Func("__main_ret")) == naming(End("main"))
    ensures var funcs := [Function("main", 0, 0, Cons(Do(CallFn("__main_ret", NoArgs)), Nil))];
            FewParams(funcs) && ItemsOf(funcs, top, naming).Some? && !Declares(funcs, "__main_ret")
  {
    hide ItemsOf, Marks, CompProgram;
    var f := Function("main", 0, 0, Cons(Do(CallFn("__main_ret", NoArgs)), Nil));
    var funcs := [f];
    LowersIff(funcs, top, naming);
    FunctionLabels(funcs, top, "main");
    ReturnLabel(f, top);
    assert funcs[..0] == [];
    var e: Expr<Place> := CallFn("__main_ret", NoArgs);
    assert f.body == Cons(Do(e), Nil) && CallsExpr(e) == {"__main_ret"};
    assert CallsStmt(Do(e)) == {"__main_ret"};
    assert CallsStmts(f.body) == {"__main_ret"};
    assert CallsAll([]) == {} && CallsAll(funcs) == {"__main_ret"};
    OwnText(Func("main"), Marks(CompProgram(funcs, top)), naming);
    assert Texted(Func("__main_ret"), Marks(CompProgram(funcs, top)), naming);
  }

  lemma {:induction false} ReturnLabel(f: Function, top: Word)
    requires f.params <= MaxArgs
    ensures End(f.name) in Marks(CompProgram([f], top))
  {
    hide Marks, StartOps, FuncOps;
    var us := UnitsOf([f]);
    UnitsFew([f]);
    UnitIsFunc([f], 0);
    assert us[..0] == [] && us[..1] == us;
    var ops, stub := FuncOps(f, Labels([f][..0])), [Mark(Start)] + StartOps(top);
    assert AllUnitOps(us) == [] + ops == ops;
    assert CompProgram([f], top) == stub + ops;
    MarksAppend(stub, ops);
    EndMarked(f, Labels([f][..0]));
  }

  lemma {:induction false} EndMarked(f: Function, n: nat)
    requires f.params <= MaxArgs
    ensures End(f.name) in Marks(FuncOps(f, n))
  {
    hide Prologue, CompStmts, Marks;
    var ops := FuncOps(f, n);
    assert BodyOps(f, n)[|BodyOps(f, n)| - 2] == Mark(End(f.name));
    assert ops[|ops| - 2] == Mark(End(f.name));
    InMarks(ops, End(f.name));
  }

  lemma CallTarget(g: string)
    ensures Target(Call(Func(g))) == Some(Func(g))
  {
  }
}
