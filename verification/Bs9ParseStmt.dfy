/** Parsing printed statements emits the code of their trees, in order of declaration and label numbers. */
module Bs9ParseStmt {
  import opened Bs9Ops
  import opened Bs9Source
  import opened Bs9Gen
  import opened Bs9Token
  import opened Bs9Parse
  import opened Bs9ParseOk

  /** The state after n tokens of a statement. */
  function AfterStmt(c: Ctx, s: St, st: Stmt<string>, n: nat): St {
    var sc := ScopeOf(c, s);
    St(s.pos + n, s.ops + CompStmt(ResolveStmt(st, sc), c.fn, s.labels), s.errors + FaultsStmt(st, sc),
       Locals(st, s.locals), s.labels + LabelCount(st))
  }

  function AfterStmts(c: Ctx, s: St, ss: Stmts<string>, n: nat): St {
    var sc := ScopeOf(c, s);
    St(s.pos + n, s.ops + CompStmts(ResolveStmts(ss, sc), c.fn, s.labels), s.errors + FaultsStmts(ss, sc),
       LocalsAll(ss, s.locals), s.labels + LabelCounts(ss))
  }

  lemma {:induction false} SameLabels(st: Stmt<string>, sc: Scope)
    ensures LabelCount(ResolveStmt(st, sc)) == LabelCount(st)
    decreases st
  {
    match st
    case If(_, thn) => SameLabels(thn, sc);
    case IfElse(_, thn, els) => SameLabels(thn, sc); SameLabels(els, With(sc, Locals(thn, sc.locals)));
    case While(_, body) => SameLabels(body, sc);
    case Block(ss) => SameLabelsAll(ss, sc);
    case _ =>
  }

  lemma {:induction false} SameLabelsAll(ss: Stmts<string>, sc: Scope)
    ensures LabelCounts(ResolveStmts(ss, sc)) == LabelCounts(ss)
    decreases ss
  {
    match ss
    case Nil =>
    case Cons(st, rest) => SameLabels(st, sc); SameLabelsAll(rest, With(sc, Locals(st, sc.locals)));
  }

  ghost predicate StmtHere(c: Ctx, s: St, st: Stmt<string>) {
    && PrintableStmt(st) && TokAt(c, s.pos, PrintStmt(st))
    && (Open(st) ==> c.Peek(s.pos + |PrintStmt(st)|) != KwElse)
  }

  ghost predicate BranchHere(c: Ctx, s: St, st: Stmt<string>, beforeElse: bool) {
    && PrintableStmt(st) && TokAt(c, s.pos, PrintBranch(st, beforeElse))
    && (Open(st) && !Braced(st, beforeElse) ==> c.Peek(s.pos + |PrintBranch(st, beforeElse)|) != KwElse)
  }

  // ----- first tokens -----

  predicate StartsExpression(t: Token) {
    t.Number? || t.Ident? || t.LParen? || t.Tilde? || t.Bang? || t.OpT?
  }

  lemma {:induction false} FirstOfExpr(c: Ctx, pos: nat, e: Expr<string>)
    requires TokAt(c, pos, Print(e))
    ensures StartsExpression(c.Peek(pos)) && Print(e) != []
    decreases e
  {
    hide TokAt;
    var ts := Print(e);
    if e.Bin? {
      TokSplit(c, pos, Print(e.l), [OpT(e.op)] + Print(e.r));
      FirstOfExpr(c, pos, e.l);
    } else {
      assert ts == [ts[0]] + ts[1..];
      TokHead(c, pos, ts[0], ts[1..]);
    }
  }

  predicate StartsStatement(t: Token, decl: bool) {
    t != Eof && t != RBrace && t != KwElse && (t == KwInt <==> decl)
  }

  lemma {:induction false} FirstOfStmt(c: Ctx, pos: nat, st: Stmt<string>)
    requires TokAt(c, pos, PrintStmt(st))
    ensures StartsStatement(c.Peek(pos), IsDecl(st)) && PrintStmt(st) != []
  {
    hide TokAt, Print;
    var ts := PrintStmt(st);
    if st.Do? {
      TokSplit(c, pos, Print(st.e), [Semi]);
      FirstOfExpr(c, pos, st.e);
    } else {
      assert ts == [ts[0]] + ts[1..];
      TokHead(c, pos, ts[0], ts[1..]);
    }
  }

  // ----- simple statements -----

  lemma {:induction false} ExprThen(c: Ctx, s: St, e: Expr<string>, t: Token)
    requires Sentence(e) && TokAt(c, s.pos, Print(e) + [t]) && (t == Semi || t == RParen)
    ensures Expect(c, GenExpr(c, s), t) == After(c, s, e, |Print(e)| + 1)
  {
    hide Print, TokAt, GenExpr, Resolve, CompExpr, Faults, Sentence;
    TokSplit(c, s.pos, Print(e), [t]);
    TokOne(c, s.pos + |Print(e)|, t);
    ExprOk(c, e, s);
  }

  lemma {:induction false} CondOk(c: Ctx, s: St, e: Expr<string>)
    requires Sentence(e) && TokAt(c, s.pos, PrintCond(e))
    ensures ParseCond(c, s) == After(c, s, e, |PrintCond(e)|)
  {
    hide Print, TokAt, GenExpr, Resolve, CompExpr, Faults;
    TokHead(c, s.pos, LParen, Print(e) + [RParen]);
    ExprThen(c, Skip(s), e, RParen);
  }

  lemma {:induction false} ReturnOk(c: Ctx, s: St, e: Expr<string>)
    requires StmtHere(c, s, Return(e))
    ensures ParseStmt(c, s) == AfterStmt(c, s, Return(e), |PrintStmt(Return(e))|)
  {
    hide Print, TokAt, GenExpr, Resolve, CompExpr, Faults;
    TokHead(c, s.pos, KwReturn, Print(e) + [Semi]);
    ExprThen(c, Skip(s), e, Semi);
    var code := CompExpr(Resolve(e, ScopeOf(c, s)));
    assert s.ops + code + [Jabs(End(c.fn))] == s.ops + (code + [Jabs(End(c.fn))]);
  }

  lemma {:induction false} DoOk(c: Ctx, s: St, e: Expr<string>)
    requires StmtHere(c, s, Do(e))
    ensures ParseStmt(c, s) == AfterStmt(c, s, Do(e), |PrintStmt(Do(e))|)
  {
    hide Print, TokAt, GenExpr, Resolve, CompExpr, Faults, ParseBlock, ParseIf, ParseWhile;
    TokSplit(c, s.pos, Print(e), [Semi]);
    FirstOfExpr(c, s.pos, e);
    ExprThen(c, s, e, Semi);
  }

  lemma {:induction false} EmptyOk(c: Ctx, s: St)
    requires StmtHere(c, s, Empty)
    ensures ParseStmt(c, s) == AfterStmt(c, s, Empty, |PrintStmt(Empty)|)
  {
    hide TokAt;
    TokOne(c, s.pos, Semi);
  }

  lemma DeclPieces(c: Ctx, pos: nat, x: string, tail: seq<Token>)
    requires TokAt(c, pos, [KwInt] + ([Ident(x)] + ([AssignT] + (tail + [Semi]))))
    ensures c.Peek(pos) == KwInt && c.Peek(pos + 1) == Ident(x) && c.Peek(pos + 2) == AssignT
    ensures TokAt(c, pos + 3, tail + [Semi])
  {
    hide *;
    TokHead(c, pos, KwInt, [Ident(x)] + ([AssignT] + (tail + [Semi])));
    TokHead(c, pos + 1, Ident(x), [AssignT] + (tail + [Semi]));
    TokHead(c, pos + 2, AssignT, tail + [Semi]);
  }

  lemma {:induction false} DeclOk(c: Ctx, s: St, st: Stmt<string>)
    requires StmtHere(c, s, st) && IsDecl(st)
    ensures c.Peek(s.pos) == KwInt && ParseDecl(c, Skip(s)) == AfterStmt(c, s, st, |PrintStmt(st)|)
  {
    hide Print, TokAt, GenExpr, Resolve, CompExpr, Faults, Plain, WriteVar, IndexOf;
    match st
    case Decl(x) => BareDeclOk(c, s, x);
    case DeclInit(x, e) =>
      DeclPieces(c, s.pos, x, Print(e));
      DeclInitOk(c, Skip(s), x, e);
  }

  lemma BareDeclOk(c: Ctx, s: St, x: string)
    requires StmtHere(c, s, Decl(x))
    ensures c.Peek(s.pos) == KwInt && ParseDecl(c, Skip(s)) == AfterStmt(c, s, Decl(x), |PrintStmt(Decl(x))|)
  {
    hide TokAt, GenExpr, Plain, WriteVar, IndexOf;
    TokHead(c, s.pos, KwInt, [Ident(x)] + [Semi]);
    TokHead(c, s.pos + 1, Ident(x), [Semi]);
    TokOne(c, s.pos + 2, Semi);
    assert s.ops + [] == s.ops;
  }

  /** What a declaration with a value is resolved to. */
  lemma {:induction false} DeclTree(fn: string, sc: Scope, x: string, e: Expr<string>, n: nat)
    ensures var sc' := With(sc, AddName(sc.locals, x));
            && CompStmt(ResolveStmt(DeclInit(x, e), sc), fn, n) ==
               CompExpr(Resolve(e, sc')) + Plain(WriteVar(Slot(SlotOf(sc.locals, x))))
            && FaultsStmt(DeclInit(x, e), sc) == OneIf(!CanAdd(sc.locals, x)) + Faults(e, sc')
  {
    hide Plain, WriteVar, CanAdd, SlotOf;
  }

  lemma {:induction false} DeclInitOk(c: Ctx, s: St, x: string, e: Expr<string>)
    requires Sentence(e) && c.Peek(s.pos) == Ident(x) && c.Peek(s.pos + 1) == AssignT
    requires TokAt(c, s.pos + 2, Print(e) + [Semi])
    ensures ParseDecl(c, s) ==
            St(s.pos + 3 + |Print(e)|,
               s.ops + CompStmt(ResolveStmt(DeclInit(x, e), ScopeOf(c, s)), c.fn, s.labels),
               s.errors + FaultsStmt(DeclInit(x, e), ScopeOf(c, s)), AddName(s.locals, x), s.labels)
  {
    hide Print, TokAt, ParseDecl, Resolve, CompExpr, Faults, Plain, WriteVar, CanAdd, AddName, After, CompStmt,
      ResolveStmt, FaultsStmt, SlotOf, Emit, AddLocal, Sentence, OneIf;
    AddedIs(Skip(s), x);
    var added, n := AddLocal(Skip(s), x), |Print(e)|;
    var sc := ScopeOf(c, added);
    DeclTree(c.fn, ScopeOf(c, s), x, e, s.labels);
    DeclParse(c, s, x, e);
    AfterIs(c, Skip(added), e, n);
    var code, write := CompExpr(Resolve(e, sc)), Plain(WriteVar(Slot(SlotOf(s.locals, x))));
    EmitAfter(s.ops, code, write, After(c, Skip(added), e, n));
  }

  lemma AddedIs(s: St, x: string)
    ensures AddLocal(s, x) ==
            St(s.pos, s.ops, s.errors + OneIf(!CanAdd(s.locals, x)), AddName(s.locals, x), s.labels)
  {
  }

  lemma EmitAfter(ops: seq<Op>, a: seq<Op>, b: seq<Op>, s: St)
    requires s.ops == ops + a
    ensures Emit(s, b) == s.(ops := ops + (a + b))
  {
    assert ops + a + b == ops + (a + b);
  }

  /** A declaration with a value, before the semicolon is checked. */
  lemma {:induction false} DeclIs(c: Ctx, s: St, x: string)
    requires c.Peek(s.pos) == Ident(x) && c.Peek(s.pos + 1) == AssignT
    ensures ParseDecl(c, s) ==
            Expect(c, Emit(GenExpr(c, Skip(AddLocal(Skip(s), x))), Plain(WriteVar(Slot(SlotOf(s.locals, x))))), Semi)
  {
    hide GenExpr, Plain, WriteVar, CanAdd, AddName, SlotOf, Emit, Expect;
  }

  lemma {:induction false} DeclParse(c: Ctx, s: St, x: string, e: Expr<string>)
    requires Sentence(e) && c.Peek(s.pos) == Ident(x) && c.Peek(s.pos + 1) == AssignT
    requires TokAt(c, s.pos + 2, Print(e) + [Semi])
    ensures ParseDecl(c, s) ==
            Skip(Emit(After(c, Skip(AddLocal(Skip(s), x)), e, |Print(e)|), Plain(WriteVar(Slot(SlotOf(s.locals, x))))))
  {
    hide *;
    var n, first := |Print(e)|, Skip(AddLocal(Skip(s), x));
    DeclIs(c, s, x);
    AddedPos(s, x);
    TokSplit(c, s.pos + 2, Print(e), [Semi]);
    TokOne(c, s.pos + 2 + n, Semi);
    ExprHere(c, first, e);
    ExprOk(c, e, first);
    ExpectMet(c, Emit(After(c, first, e, n), Plain(WriteVar(Slot(SlotOf(s.locals, x))))), first.pos + n, Semi);
    AfterEmitPos(c, first, e, n, Plain(WriteVar(Slot(SlotOf(s.locals, x)))));
  }

  lemma {:induction false} ExprHere(c: Ctx, s: St, e: Expr<string>)
    requires Sentence(e) && TokAt(c, s.pos, Print(e)) && c.Peek(s.pos + |Print(e)|) == Semi
    ensures Bs9ParseOk.Here(c, s, e) && !c.Peek(s.pos + |Print(e)|).OpT?
  {
    hide Print, TokAt, Sentence;
  }

  lemma AddedPos(s: St, x: string)
    ensures Skip(AddLocal(Skip(s), x)).pos == s.pos + 2
  {
  }

  lemma AfterEmitPos(c: Ctx, s: St, e: Expr<string>, n: nat, more: seq<Op>)
    ensures Emit(After(c, s, e, n), more).pos == s.pos + n
  {
  }

  lemma ExpectMet(c: Ctx, s: St, pos: nat, t: Token)
    ensures s.pos == pos && c.Peek(pos) == t ==> Expect(c, s, t) == Skip(s)
  {
  }

  lemma {:induction false} AfterIs(c: Ctx, s: St, e: Expr<string>, n: nat)
    ensures After(c, s, e, n) ==
            St(s.pos + n, s.ops + CompExpr(Resolve(e, ScopeOf(c, s))), s.errors + Faults(e, ScopeOf(c, s)),
               s.locals, s.labels)
  {
  }

  // ----- compound statements -----

  /** A condition and the jump after it. */
  lemma {:induction false} CondStep(c: Ctx, s: St, e: Expr<string>, j: Op)
    requires Sentence(e) && TokAt(c, s.pos, PrintCond(e))
    ensures Emit(ParseCond(c, s), [j]) ==
            St(s.pos + |PrintCond(e)|, s.ops + (CompExpr(Resolve(e, ScopeOf(c, s))) + [j]),
               s.errors + Faults(e, ScopeOf(c, s)), s.locals, s.labels)
  {
    hide PrintCond, TokAt, ParseCond, Resolve, CompExpr, Faults, After;
    CondOk(c, s, e);
    AfterIs(c, s, e, |PrintCond(e)|);
    var code := CompExpr(Resolve(e, ScopeOf(c, s)));
    assert s.ops + code + [j] == s.ops + (code + [j]);
  }

  lemma {:induction false} IfParse(c: Ctx, s: St)
    requires c.Peek(s.pos) == KwIf
    ensures ParseStmt(c, s) == ParseIf(c, Skip(s))
  {
    hide ParseIf;
  }

  lemma {:induction false} WhileParse(c: Ctx, s: St)
    requires c.Peek(s.pos) == KwWhile
    ensures ParseStmt(c, s) == ParseWhile(c, Skip(s))
  {
    hide ParseWhile;
  }

  lemma {:induction false} IfTokens(c: Ctx, s: St, e: Expr<string>, thn: Stmt<string>)
    requires StmtHere(c, s, If(e, thn))
    ensures c.Peek(s.pos) == KwIf && Sentence(e) && TokAt(c, s.pos + 1, PrintCond(e))
    ensures PrintableStmt(thn) && TokAt(c, s.pos + 1 + |PrintCond(e)|, PrintBranch(thn, false))
    ensures |PrintStmt(If(e, thn))| == 1 + |PrintCond(e)| + |PrintBranch(thn, false)|
    ensures c.Peek(s.pos + 1 + |PrintCond(e)| + |PrintBranch(thn, false)|) != KwElse
  {
    hide PrintCond, PrintBranch, TokAt, Braced, Resolve, CompExpr, Print;
    BranchPieces(c, s.pos, KwIf, PrintCond(e), PrintBranch(thn, false));
  }

  lemma {:induction false} IfTree(fn: string, sc: Scope, e: Expr<string>, thn: Stmt<string>, n: nat)
    ensures CompStmt(ResolveStmt(If(e, thn), sc), fn, n) ==
            CompExpr(Resolve(e, sc)) + [JabsIfZero(Else(n))] + CompStmt(ResolveStmt(thn, sc), fn, n + 2) + [Mark(Else(n))]
    ensures FaultsStmt(If(e, thn), sc) == Faults(e, sc) + FaultsStmt(thn, sc)
    ensures Locals(If(e, thn), sc.locals) == Locals(thn, sc.locals) && LabelCount(If(e, thn)) == 2 + LabelCount(thn)
  {
  }

  lemma {:induction false} WhileTree(fn: string, sc: Scope, e: Expr<string>, body: Stmt<string>, n: nat)
    ensures CompStmt(ResolveStmt(While(e, body), sc), fn, n) ==
            [Mark(Top(n))] + (CompExpr(Resolve(e, sc)) + [JabsIfZero(Wend(n + 1))]) +
            CompStmt(ResolveStmt(body, sc), fn, n + 2) + [Jabs(Top(n))] + [Mark(Wend(n + 1))]
    ensures FaultsStmt(While(e, body), sc) == Faults(e, sc) + FaultsStmt(body, sc)
    ensures Locals(While(e, body), sc.locals) == Locals(body, sc.locals) && LabelCount(While(e, body)) == 2 + LabelCount(body)
  {
  }

  lemma {:induction false} IfElseTree(fn: string, sc: Scope, e: Expr<string>, thn: Stmt<string>, els: Stmt<string>, n: nat)
    ensures var sc', m := With(sc, Locals(thn, sc.locals)), n + 2 + LabelCount(thn);
            && CompStmt(ResolveStmt(IfElse(e, thn, els), sc), fn, n) ==
               CompExpr(Resolve(e, sc)) + [JabsIfZero(Else(n))] + CompStmt(ResolveStmt(thn, sc), fn, n + 2) +
               [Jabs(IfEnd(n + 1))] + [Mark(Else(n))] + CompStmt(ResolveStmt(els, sc'), fn, m) + [Mark(IfEnd(n + 1))]
            && FaultsStmt(IfElse(e, thn, els), sc) == Faults(e, sc) + FaultsStmt(thn, sc) + FaultsStmt(els, sc')
            && Locals(IfElse(e, thn, els), sc.locals) == Locals(els, Locals(thn, sc.locals))
            && LabelCount(IfElse(e, thn, els)) == 2 + LabelCount(thn) + LabelCount(els)
  {
    hide CompExpr, Resolve, Faults;
    SameLabels(thn, sc);
  }

  lemma {:induction false} IfOk(c: Ctx, s: St, e: Expr<string>, thn: Stmt<string>)
    requires StmtHere(c, s, If(e, thn))
    ensures ParseStmt(c, s) == AfterStmt(c, s, If(e, thn), |PrintStmt(If(e, thn))|)
    decreases If(e, thn), 0
  {
    hide PrintStmt, PrintCond, PrintBranch, TokAt, ParseCond, ParseStmt, CompExpr, Resolve, Faults, Emit, StmtHere,
      CompStmt, ResolveStmt, FaultsStmt, Locals, LabelCount;
    IfTokens(c, s, e, thn);
    IfParse(c, s);
    var n, sc := s.labels, ScopeOf(c, s);
    IfTree(c.fn, sc, e, thn, n);
    var s1 := NewLabels(Skip(s));
    CondStep(c, s1, e, JabsIfZero(Else(n)));
    var s2 := Emit(ParseCond(c, s1), [JabsIfZero(Else(n))]);
    BranchOk(c, s2, thn, false);
    var head, body := CompExpr(Resolve(e, sc)) + [JabsIfZero(Else(n))], CompStmt(ResolveStmt(thn, sc), c.fn, n + 2);
    EmitMark(s.ops, head, body, AfterStmt(c, s2, thn, |PrintBranch(thn, false)|), Mark(Else(n)));
  }

  lemma EmitMark(ops: seq<Op>, a: seq<Op>, b: seq<Op>, s: St, op: Op)
    requires s.ops == ops + a + b
    ensures Emit(s, [op]) == s.(ops := ops + (a + b + [op]))
  {
    assert ops + a + b + [op] == ops + (a + b + [op]);
  }

  lemma {:induction false} IfElseTokens(c: Ctx, s: St, e: Expr<string>, thn: Stmt<string>, els: Stmt<string>)
    requires StmtHere(c, s, IfElse(e, thn, els))
    ensures var m, k, l := |PrintCond(e)|, |PrintBranch(thn, true)|, |PrintBranch(els, false)|;
            && c.Peek(s.pos) == KwIf && Sentence(e) && TokAt(c, s.pos + 1, PrintCond(e))
            && PrintableStmt(thn) && TokAt(c, s.pos + 1 + m, PrintBranch(thn, true))
            && c.Peek(s.pos + 1 + m + k) == KwElse
            && PrintableStmt(els) && TokAt(c, s.pos + 2 + m + k, PrintBranch(els, false))
            && (Open(els) ==> c.Peek(s.pos + 2 + m + k + l) != KwElse)
            && |PrintStmt(IfElse(e, thn, els))| == 2 + m + k + l
  {
    hide *;
    IfElsePrinted(c, s, e, thn, els);
    IfElsePieces(c, s.pos, PrintCond(e), PrintBranch(thn, true), PrintBranch(els, false));
  }

  lemma {:induction false} IfElsePrinted(c: Ctx, s: St, e: Expr<string>, thn: Stmt<string>, els: Stmt<string>)
    requires StmtHere(c, s, IfElse(e, thn, els))
    ensures Sentence(e) && PrintableStmt(thn) && PrintableStmt(els)
    ensures TokAt(c, s.pos, [KwIf] + (PrintCond(e) + (PrintBranch(thn, true) + ([KwElse] + PrintBranch(els, false)))))
    ensures var n := |PrintStmt(IfElse(e, thn, els))|;
            && n == 2 + |PrintCond(e)| + |PrintBranch(thn, true)| + |PrintBranch(els, false)|
            && (Open(els) ==> c.Peek(s.pos + n) != KwElse)
  {
    hide PrintCond, PrintBranch, TokAt, Braced, Resolve, CompExpr, Print, Sentence, CompStmt, ResolveStmt;
  }

  lemma IfElsePieces(c: Ctx, pos: nat, a: seq<Token>, b: seq<Token>, d: seq<Token>)
    requires TokAt(c, pos, [KwIf] + (a + (b + ([KwElse] + d))))
    ensures c.Peek(pos) == KwIf && TokAt(c, pos + 1, a) && TokAt(c, pos + 1 + |a|, b)
    ensures c.Peek(pos + 1 + |a| + |b|) == KwElse && TokAt(c, pos + 2 + |a| + |b|, d)
  {
    hide *;
    TokHead(c, pos, KwIf, a + (b + ([KwElse] + d)));
    TokSplit(c, pos + 1, a, b + ([KwElse] + d));
    TokSplit(c, pos + 1 + |a|, b, [KwElse] + d);
    TokHead(c, pos + 1 + |a| + |b|, KwElse, d);
  }

  /** A keyword, a condition and a branch. */
  lemma BranchPieces(c: Ctx, pos: nat, k: Token, a: seq<Token>, b: seq<Token>)
    requires TokAt(c, pos, [k] + (a + b))
    ensures c.Peek(pos) == k && TokAt(c, pos + 1, a) && TokAt(c, pos + 1 + |a|, b)
  {
    hide *;
    TokHead(c, pos, k, a + b);
    TokSplit(c, pos + 1, a, b);
  }

  lemma {:induction false} IfElseOk(c: Ctx, s: St, e: Expr<string>, thn: Stmt<string>, els: Stmt<string>)
    requires StmtHere(c, s, IfElse(e, thn, els))
    ensures ParseStmt(c, s) == AfterStmt(c, s, IfElse(e, thn, els), |PrintStmt(IfElse(e, thn, els))|)
    decreases IfElse(e, thn, els), 0
  {
    hide PrintStmt, PrintCond, PrintBranch, TokAt, ParseCond, ParseStmt, CompExpr, Resolve, Faults, Emit, StmtHere,
      CompStmt, ResolveStmt, FaultsStmt, Locals, LabelCount;
    IfElseTokens(c, s, e, thn, els);
    IfParse(c, s);
    var n, sc := s.labels, ScopeOf(c, s);
    IfElseTree(c.fn, sc, e, thn, els, n);
    var s1 := NewLabels(Skip(s));
    CondStep(c, s1, e, JabsIfZero(Else(n)));
    var s2 := Emit(ParseCond(c, s1), [JabsIfZero(Else(n))]);
    BranchOk(c, s2, thn, true);
    var head, a := CompExpr(Resolve(e, sc)) + [JabsIfZero(Else(n))], CompStmt(ResolveStmt(thn, sc), c.fn, n + 2);
    var s3 := AfterStmt(c, s2, thn, |PrintBranch(thn, true)|);
    EmitMark(s.ops, head, a, Skip(s3), Jabs(IfEnd(n + 1)));
    var s4 := Emit(Skip(s3), [Jabs(IfEnd(n + 1))]);
    EmitMark(s.ops, head + a + [Jabs(IfEnd(n + 1))], [], s4, Mark(Else(n)));
    var upTo := head + a + [Jabs(IfEnd(n + 1))] + [Mark(Else(n))];
    assert head + a + [Jabs(IfEnd(n + 1))] + [] + [Mark(Else(n))] == upTo;
    var s5 := Emit(s4, [Mark(Else(n))]);
    BranchOk(c, s5, els, false);
    var sc' := With(sc, Locals(thn, sc.locals));
    var b := CompStmt(ResolveStmt(els, sc'), c.fn, n + 2 + LabelCount(thn));
    EmitMark(s.ops, upTo, b, AfterStmt(c, s5, els, |PrintBranch(els, false)|), Mark(IfEnd(n + 1)));
  }

  lemma {:induction false} WhileTokens(c: Ctx, s: St, e: Expr<string>, body: Stmt<string>)
    requires StmtHere(c, s, While(e, body))
    ensures c.Peek(s.pos) == KwWhile && Sentence(e) && TokAt(c, s.pos + 1, PrintCond(e))
    ensures PrintableStmt(body) && TokAt(c, s.pos + 1 + |PrintCond(e)|, PrintBranch(body, false))
    ensures |PrintStmt(While(e, body))| == 1 + |PrintCond(e)| + |PrintBranch(body, false)|
    ensures Open(body) ==> c.Peek(s.pos + 1 + |PrintCond(e)| + |PrintBranch(body, false)|) != KwElse
  {
    hide PrintCond, PrintBranch, TokAt, Braced, Resolve, CompExpr, Print;
    BranchPieces(c, s.pos, KwWhile, PrintCond(e), PrintBranch(body, false));
  }

  lemma {:induction false} WhileOk(c: Ctx, s: St, e: Expr<string>, body: Stmt<string>)
    requires StmtHere(c, s, While(e, body))
    ensures ParseStmt(c, s) == AfterStmt(c, s, While(e, body), |PrintStmt(While(e, body))|)
    decreases While(e, body), 0
  {
    hide PrintStmt, PrintCond, PrintBranch, TokAt, ParseCond, ParseStmt, CompExpr, Resolve, Faults, Emit, StmtHere,
      CompStmt, ResolveStmt, FaultsStmt, Locals, LabelCount;
    WhileTokens(c, s, e, body);
    WhileParse(c, s);
    var n, sc := s.labels, ScopeOf(c, s);
    WhileTree(c.fn, sc, e, body, n);
    var s0 := NewLabels(Skip(s));
    var top := [Mark(Top(n))];
    EmitMark(s.ops, [], [], s0, Mark(Top(n)));
    assert [] + [] + top == top && s.ops + [] + [] == s.ops;
    var s1 := Emit(s0, top);
    CondStep(c, s1, e, JabsIfZero(Wend(n + 1)));
    var s2 := Emit(ParseCond(c, s1), [JabsIfZero(Wend(n + 1))]);
    BranchOk(c, s2, body, false);
    var head, a := CompExpr(Resolve(e, sc)) + [JabsIfZero(Wend(n + 1))], CompStmt(ResolveStmt(body, sc), c.fn, n + 2);
    var s3 := AfterStmt(c, s2, body, |PrintBranch(body, false)|);
    assert s.ops + top + head == s.ops + (top + head);
    EmitMark(s.ops, top + head, a, s3, Jabs(Top(n)));
    var s4 := Emit(s3, [Jabs(Top(n))]);
    EmitMark(s.ops, top + head + a + [Jabs(Top(n))], [], s4, Mark(Wend(n + 1)));
    assert top + head + a + [Jabs(Top(n))] + [] == top + head + a + [Jabs(Top(n))];
  }

  lemma {:induction false} StmtOk(c: Ctx, s: St, st: Stmt<string>)
    requires StmtHere(c, s, st) && !IsDecl(st)
    ensures ParseStmt(c, s) == AfterStmt(c, s, st, |PrintStmt(st)|)
    decreases st, 1
  {
    hide PrintStmt, TokAt, ParseStmt, StmtHere, AfterStmt;
    match st
    case Return(e) => ReturnOk(c, s, e);
    case If(e, thn) => IfOk(c, s, e, thn);
    case IfElse(e, thn, els) => IfElseOk(c, s, e, thn, els);
    case While(e, body) => WhileOk(c, s, e, body);
    case Block(ss) => BlockOk(c, s, ss);
    case Do(e) => DoOk(c, s, e);
    case Empty => EmptyOk(c, s);
  }

  lemma {:induction false} BlockTokens(c: Ctx, s: St, ts: seq<Token>)
    requires TokAt(c, s.pos, [LBrace] + (ts + [RBrace]))
    ensures TokAt(c, s.pos + 1, ts) && c.Peek(s.pos + 1 + |ts|) == RBrace
    ensures ParseStmt(c, s) == Expect(c, BlockLoop(c, Skip(s)), RBrace)
    ensures ParseBlock(c, s) == ParseStmt(c, s)
  {
    hide TokAt, BlockLoop;
    TokHead(c, s.pos, LBrace, ts + [RBrace]);
    TokSplit(c, s.pos + 1, ts, [RBrace]);
    TokOne(c, s.pos + 1 + |ts|, RBrace);
  }

  lemma {:induction false} BlockOk(c: Ctx, s: St, ss: Stmts<string>)
    requires StmtHere(c, s, Block(ss))
    ensures ParseStmt(c, s) == AfterStmt(c, s, Block(ss), |PrintStmt(Block(ss))|)
    decreases Block(ss), 0
  {
    hide TokAt, ParseStmt, BlockLoop, PrintStmts, ResolveStmts, FaultsStmts, LocalsAll;
    BlockTokens(c, s, PrintStmts(ss));
    StmtsOk(c, Skip(s), ss);
  }

  /** A statement or declaration in a block. */
  lemma {:induction false} ItemOk(c: Ctx, s: St, st: Stmt<string>)
    requires StmtHere(c, s, st)
    ensures BlockLoop(c, s) == BlockLoop(c, AfterStmt(c, s, st, |PrintStmt(st)|))
    decreases st, 2
  {
    hide TokAt, ParseStmt, ParseDecl, PrintStmt, AfterStmt;
    FirstOfStmt(c, s.pos, st);
    if IsDecl(st) {
      DeclOk(c, s, st);
    } else {
      StmtOk(c, s, st);
    }
  }

  lemma {:induction false} BranchOk(c: Ctx, s: St, st: Stmt<string>, beforeElse: bool)
    requires BranchHere(c, s, st, beforeElse)
    ensures ParseStmt(c, s) == AfterStmt(c, s, st, |PrintBranch(st, beforeElse)|)
    decreases st, 3
  {
    hide TokAt, ParseStmt, BlockLoop, PrintStmt, CompStmt, ResolveStmt, FaultsStmt, Locals;
    if Braced(st, beforeElse) {
      BlockTokens(c, s, PrintStmt(st));
      ItemOk(c, Skip(s), st);
      LoopDone(c, AfterStmt(c, Skip(s), st, |PrintStmt(st)|));
    } else {
      StmtOk(c, s, st);
    }
  }

  lemma {:induction false} LoopDone(c: Ctx, s: St)
    requires c.Peek(s.pos) == RBrace
    ensures BlockLoop(c, s) == s
  {
  }

  lemma {:induction false} StmtsTokens(c: Ctx, s: St, st: Stmt<string>, rest: Stmts<string>)
    requires PrintableStmts(Cons(st, rest)) && TokAt(c, s.pos, PrintStmts(Cons(st, rest)))
    requires c.Peek(s.pos + |PrintStmts(Cons(st, rest))|) == RBrace
    ensures StmtHere(c, s, st) && TokAt(c, s.pos + |PrintStmt(st)|, PrintStmts(rest))
    ensures |PrintStmts(Cons(st, rest))| == |PrintStmt(st)| + |PrintStmts(rest)|
  {
    hide TokAt;
    TokSplit(c, s.pos, PrintStmt(st), PrintStmts(rest));
    if rest.Cons? {
      TokSplit(c, s.pos + |PrintStmt(st)|, PrintStmt(rest.hd), PrintStmts(rest.tl));
      FirstOfStmt(c, s.pos + |PrintStmt(st)|, rest.hd);
    }
  }

  lemma {:induction false} StmtsOk(c: Ctx, s: St, ss: Stmts<string>)
    requires PrintableStmts(ss) && TokAt(c, s.pos, PrintStmts(ss)) && c.Peek(s.pos + |PrintStmts(ss)|) == RBrace
    ensures BlockLoop(c, s) == AfterStmts(c, s, ss, |PrintStmts(ss)|)
    decreases ss
  {
    hide TokAt, BlockLoop, PrintStmt, PrintStmts, StmtHere, CompStmt, ResolveStmt, FaultsStmt, Locals;
    match ss
    case Nil =>
      NoStmts();
      LoopDone(c, s);
      assert s.ops + [] == s.ops;
    case Cons(st, rest) =>
      StmtsTokens(c, s, st, rest);
      ItemOk(c, s, st);
      var s1, sc := AfterStmt(c, s, st, |PrintStmt(st)|), ScopeOf(c, s);
      StmtsOk(c, s1, rest);
      SameLabels(st, sc);
      var a := CompStmt(ResolveStmt(st, sc), c.fn, s.labels);
      var b := CompStmts(ResolveStmts(rest, With(sc, Locals(st, sc.locals))), c.fn, s.labels + LabelCount(st));
      assert s.ops + a + b == s.ops + (a + b);
  }

  lemma NoStmts()
    ensures PrintStmts(Nil) == []
  {
  }
}
