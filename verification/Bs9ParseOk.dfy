/** Parsing the tokens of an expression of the grammar emits the code of its tree and consumes exactly these tokens. */
module Bs9ParseOk {
  import opened Words
  import opened Bs9Ops
  import opened Bs9Source
  import opened Bs9Gen
  import opened Bs9Token
  import opened Bs9Parse

  ghost predicate TokAt(c: Ctx, pos: nat, ts: seq<Token>) {
    pos + |ts| <= |c.toks| && c.toks[pos..pos + |ts|] == ts
  }

  lemma TokSplit(c: Ctx, pos: nat, a: seq<Token>, b: seq<Token>)
    requires TokAt(c, pos, a + b)
    ensures TokAt(c, pos, a) && TokAt(c, pos + |a|, b)
  {
    var all := c.toks[pos..pos + |a + b|];
    assert all[..|a|] == a && all[|a|..] == b;
    assert c.toks[pos..pos + |a|] == all[..|a|];
    assert c.toks[pos + |a|..pos + |a| + |b|] == all[|a|..];
  }

  lemma TokHead(c: Ctx, pos: nat, t: Token, rest: seq<Token>)
    requires TokAt(c, pos, [t] + rest)
    ensures c.Peek(pos) == t && TokAt(c, pos + 1, rest)
  {
    TokSplit(c, pos, [t], rest);
    TokOne(c, pos, t);
  }

  lemma TokOne(c: Ctx, pos: nat, t: Token)
    requires TokAt(c, pos, [t])
    ensures c.Peek(pos) == t
  {
    assert c.toks[pos..pos + 1][0] == t;
  }

  /** A state n tokens, some operations and f errors later. */
  function Moved(s: St, n: nat, ops: seq<Op>, f: nat): St {
    s.(pos := s.pos + n, ops := s.ops + ops, errors := s.errors + f)
  }

  lemma MovedTwice(s: St, n: nat, ops: seq<Op>, f: nat, n': nat, ops': seq<Op>, f': nat)
    ensures Moved(Moved(s, n, ops, f), n', ops', f') == Moved(s, n + n', ops + ops', f + f')
  {
    assert s.ops + ops + ops' == s.ops + (ops + ops');
  }

  lemma MovedSkip(s: St, n: nat, ops: seq<Op>, f: nat)
    ensures Moved(Skip(s), n, ops, f) == Moved(s, n + 1, ops, f)
    ensures Skip(Moved(s, n, ops, f)) == Moved(s, n + 1, ops, f)
  {
  }

  lemma MovedEmit(s: St, n: nat, ops: seq<Op>, f: nat, more: seq<Op>)
    ensures Emit(Moved(s, n, ops, f), more) == Moved(s, n, ops + more, f)
  {
    assert s.ops + ops + more == s.ops + (ops + more);
  }

  lemma MovedFault(s: St, n: nat, ops: seq<Op>, f: nat, g: nat)
    ensures Fault(Moved(s, n, ops, f), g) == Moved(s, n, ops, f + g)
  {
  }

  /** The state after a printed expression of n tokens. */
  function After(c: Ctx, s: St, e: Expr<string>, n: nat): St {
    Moved(s, n, CompExpr(Resolve(e, ScopeOf(c, s))), Faults(e, ScopeOf(c, s)))
  }

  /** An expression may end before this token. */
  predicate Follow(t: Token) { t != LParen && t != AssignT }

  /** The tokens of an expression of a level, and what may follow it. */
  ghost predicate HereAt(c: Ctx, s: St, e: Expr<string>, level: Level) {
    Derives(level, e) && TokAt(c, s.pos, Print(e)) && Follow(c.Peek(s.pos + |Print(e)|))
  }

  ghost predicate Here(c: Ctx, s: St, e: Expr<string>) {
    Sentence(e) && TokAt(c, s.pos, Print(e)) && Follow(c.Peek(s.pos + |Print(e)|))
  }

  lemma {:induction false} OperandIs(e: Expr<string>)
    ensures Derives(UnaryLevel, e) <==> Operand(e)
  {
  }

  // ----- unary operators and primaries -----

  ghost predicate Prefix(op: UnaryOp, t: Token, e: Expr<string>, e1: Expr<string>) {
    match op
    case LoadOp => false
    case NegOp => t == OpT(Minus) && e == Neg(e1)
    case ComplOp => t == Tilde && e == Compl(e1)
    case NotOp => t == Bang && e == Not(e1)
  }

  lemma {:induction false} PrefixParts(c: Ctx, s: St, op: UnaryOp, t: Token, e: Expr<string>, e1: Expr<string>)
    requires Prefix(op, t, e, e1) && HereAt(c, s, e, UnaryLevel)
    ensures e1 < e && c.Peek(s.pos) == t && HereAt(c, Skip(s), e1, UnaryLevel) && |Print(e)| == |Print(e1)| + 1
    ensures GenUnary(c, s) == Emit(GenUnary(c, Skip(s)), UnaryCode(op))
    ensures var sc := ScopeOf(c, s);
            && CompExpr(Resolve(e, sc)) == CompExpr(Resolve(e1, sc)) + UnaryCode(op)
            && Faults(e, sc) == Faults(e1, sc) && ScopeOf(c, Skip(s)) == sc
  {
    hide UnaryCode, TokAt, GenPrimary;
    OperandIs(e);
    assert Print(e) == [t] + Print(e1);
    TokHead(c, s.pos, t, Print(e1));
  }

  lemma {:induction false} PlusParts(c: Ctx, s: St, e1: Expr<string>)
    requires HereAt(c, s, Pos(e1), UnaryLevel)
    ensures HereAt(c, Skip(s), e1, UnaryLevel) && |Print(Pos(e1))| == |Print(e1)| + 1
    ensures GenUnary(c, s) == GenUnary(c, Skip(s))
    ensures var sc := ScopeOf(c, s);
            && CompExpr(Resolve(Pos(e1), sc)) == CompExpr(Resolve(e1, sc))
            && Faults(Pos(e1), sc) == Faults(e1, sc) && ScopeOf(c, Skip(s)) == sc
  {
    hide UnaryCode, TokAt, GenPrimary;
    OperandIs(Pos(e1));
    var e: Expr<string> := Pos(e1);
    assert Print(e) == [OpT(Plus)] + Print(e1);
    TokHead(c, s.pos, OpT(Plus), Print(e1));
  }

  lemma {:induction false} PrefixOk(c: Ctx, s: St, op: UnaryOp, t: Token, e: Expr<string>, e1: Expr<string>)
    requires Prefix(op, t, e, e1) && HereAt(c, s, e, UnaryLevel)
    ensures GenUnary(c, s) == After(c, s, e, |Print(e)|)
    decreases e, 1
  {
    hide CompExpr, GenUnary, Moved, Emit, Skip, Print, Faults, Resolve, HereAt;
    PrefixParts(c, s, op, t, e, e1);
    UnaryOk(c, e1, Skip(s));
    var sc, n := ScopeOf(c, s), |Print(e1)|;
    MovedSkip(s, n, CompExpr(Resolve(e1, sc)), Faults(e1, sc));
    MovedEmit(s, n + 1, CompExpr(Resolve(e1, sc)), Faults(e1, sc), UnaryCode(op));
  }

  lemma {:induction false} UnaryOk(c: Ctx, e: Expr<string>, s: St)
    requires HereAt(c, s, e, UnaryLevel)
    ensures GenUnary(c, s) == After(c, s, e, |Print(e)|)
    decreases e, 2
  {
    hide CompExpr, GenUnary, Moved, Skip, Print, Faults, Resolve, HereAt;
    match e
    case Pos(e1) =>
      PlusParts(c, s, e1);
      UnaryOk(c, e1, Skip(s));
      var sc := ScopeOf(c, s);
      MovedSkip(s, |Print(e1)|, CompExpr(Resolve(e1, sc)), Faults(e1, sc));
    case Neg(e1) => PrefixOk(c, s, NegOp, OpT(Minus), e, e1);
    case Compl(e1) => PrefixOk(c, s, ComplOp, Tilde, e, e1);
    case Not(e1) => PrefixOk(c, s, NotOp, Bang, e, e1);
    case Paren(e1) => ParenOk(c, e1, s);
    case Bin(_, _, _) => NoOperand(c, s, e);
    case Assign(_, _) => NoOperand(c, s, e);
    case Num(v) => NumOk(c, v, s);
    case Var(x) => VarOk(c, x, s);
    case Load(a) => LoadOk(c, a, s);
    case Store(a, v) => StoreOk(c, a, v, s);
    case CallFn(f, args) => CallOk(c, f, args, s);
  }

  lemma {:induction false} NumOk(c: Ctx, v: Word, s: St)
    requires HereAt(c, s, Num(v), UnaryLevel)
    ensures GenUnary(c, s) == After(c, s, Num(v), |Print(Num(v))|)
  {
    hide Plain, Const;
    assert Print(Num(v)) == [Number(v)];
    TokOne(c, s.pos, Number(v));
  }

  lemma {:induction false} VarOk(c: Ctx, x: string, s: St)
    requires HereAt(c, s, Var(x), UnaryLevel)
    ensures GenUnary(c, s) == After(c, s, Var(x), |Print(Var(x))|)
  {
    hide Plain, Const, ReadVar, Lookup;
    assert Print(Var(x)) == [Ident(x)];
    TokOne(c, s.pos, Ident(x));
    assert CompExpr(Num(0)) == Plain(Const(0));
  }

  lemma {:induction false} ParenParts(c: Ctx, s: St, e: Expr<string>)
    requires HereAt(c, s, Paren(e), UnaryLevel)
    ensures c.Peek(s.pos) == LParen && Here(c, Skip(s), e) && c.Peek(s.pos + 1 + |Print(e)|) == RParen
    ensures |Print(Paren(e))| == |Print(e)| + 2 && ScopeOf(c, Skip(s)) == ScopeOf(c, s)
    ensures var sc := ScopeOf(c, s);
            CompExpr(Resolve(Paren(e), sc)) == CompExpr(Resolve(e, sc)) && Faults(Paren(e), sc) == Faults(e, sc)
  {
    hide TokAt, GenExpr;
    OperandIs(Paren(e));
    ParenPieces(c, s.pos, Print(e));
  }

  lemma {:induction false} NoOperand(c: Ctx, s: St, e: Expr<string>)
    requires e.Bin? || e.Assign?
    ensures !HereAt(c, s, e, UnaryLevel)
  {
    OperandIs(e);
  }

  lemma ParenPieces(c: Ctx, pos: nat, ts: seq<Token>)
    requires TokAt(c, pos, [LParen] + (ts + [RParen]))
    ensures c.Peek(pos) == LParen && TokAt(c, pos + 1, ts) && c.Peek(pos + 1 + |ts|) == RParen
  {
    hide *;
    TokHead(c, pos, LParen, ts + [RParen]);
    TokSplit(c, pos + 1, ts, [RParen]);
    TokOne(c, pos + 1 + |ts|, RParen);
  }

  lemma {:induction false} ParenParse(c: Ctx, s: St)
    requires c.Peek(s.pos) == LParen
    ensures GenUnary(c, s) == Expect(c, GenExpr(c, Skip(s)), RParen)
  {
    hide GenExpr, Expect;
  }

  lemma {:induction false} ParenOk(c: Ctx, e: Expr<string>, s: St)
    requires HereAt(c, s, Paren(e), UnaryLevel)
    ensures GenUnary(c, s) == After(c, s, Paren(e), |Print(Paren(e))|)
    decreases Paren(e), 1
  {
    hide CompExpr, GenUnary, GenExpr, Print, Faults, Resolve, Here, HereAt;
    ParenParts(c, s, e);
    ParenParse(c, s);
    ExprOk(c, e, Skip(s));
  }

  // ----- calls and intrinsics -----

  /** A name and an opening parenthesis: one of the intrinsics or a call. */
  lemma {:induction false} NameParse(c: Ctx, s: St, name: string)
    requires c.Peek(s.pos) == Ident(name) && c.Peek(s.pos + 1) == LParen
    ensures GenUnary(c, s) ==
            if name == LoadName then GenLoad(c, Skip(Skip(s)))
            else if name == StoreName then GenStore(c, Skip(Skip(s)))
            else GenCall(c, Skip(Skip(s)), name)
    ensures LoadName != StoreName
  {
    hide GenLoad, GenStore, GenCall;
    assert |StoreName| != |LoadName|;
  }

  lemma NameHead(c: Ctx, pos: nat, name: string, rest: seq<Token>)
    requires TokAt(c, pos, [Ident(name)] + ([LParen] + rest))
    ensures c.Peek(pos) == Ident(name) && c.Peek(pos + 1) == LParen && TokAt(c, pos + 2, rest)
  {
    hide TokAt;
    TokHead(c, pos, Ident(name), [LParen] + rest);
    TokHead(c, pos + 1, LParen, rest);
  }

  lemma TokPair(c: Ctx, pos: nat, ts: seq<Token>, us: seq<Token>)
    requires TokAt(c, pos, ts + ([Comma] + (us + [RParen])))
    ensures TokAt(c, pos, ts) && c.Peek(pos + |ts|) == Comma
    ensures TokAt(c, pos + |ts| + 1, us) && c.Peek(pos + |ts| + 1 + |us|) == RParen
  {
    hide TokAt;
    TokSplit(c, pos, ts, [Comma] + (us + [RParen]));
    TokHead(c, pos + |ts|, Comma, us + [RParen]);
    TokSplit(c, pos + |ts| + 1, us, [RParen]);
    TokOne(c, pos + |ts| + 1 + |us|, RParen);
  }

  lemma {:induction false} LoadParts(c: Ctx, s: St, a: Expr<string>)
    requires HereAt(c, s, Load(a), UnaryLevel)
    ensures Here(c, Skip(Skip(s)), a) && c.Peek(s.pos + 2 + |Print(a)|) == RParen
    ensures |Print(Load(a))| == |Print(a)| + 3
    ensures c.Peek(s.pos) == Ident(LoadName) && c.Peek(s.pos + 1) == LParen
  {
    hide TokAt;
    OperandIs(Load(a));
    var e: Expr<string> := Load(a);
    var ts := Print(a);
    assert Print(e) == [Ident(LoadName)] + ([LParen] + (ts + [RParen]));
    NameHead(c, s.pos, LoadName, ts + [RParen]);
    TokSplit(c, s.pos + 2, ts, [RParen]);
    TokOne(c, s.pos + 2 + |ts|, RParen);
  }

  lemma {:induction false} LoadOk(c: Ctx, a: Expr<string>, s: St)
    requires HereAt(c, s, Load(a), UnaryLevel)
    ensures GenUnary(c, s) == After(c, s, Load(a), |Print(Load(a))|)
    decreases Load(a), 1
  {
    hide GenUnary, GenExpr, Print, UnaryCode, Here, HereAt, Emit, Moved;
    LoadParts(c, s, a);
    NameParse(c, s, LoadName);
    var s2, sc, n := Skip(Skip(s)), ScopeOf(c, s), |Print(a)|;
    ExprOk(c, a, s2);
    var code, f := CompExpr(Resolve(a, sc)), Faults(a, sc);
    MovedPos(c, s2, n, code, f);
    MovedSkip(Skip(s), n, code, f);
    MovedSkip(s, n + 1, code, f);
    MovedSkip(s, n + 2, code, f);
    MovedEmit(s, n + 3, code, f, UnaryCode(LoadOp));
  }

  lemma MovedPos(c: Ctx, s: St, n: nat, ops: seq<Op>, f: nat)
    ensures Moved(s, n, ops, f).pos == s.pos + n && ScopeOf(c, Moved(s, n, ops, f)) == ScopeOf(c, s)
  {
  }

  lemma SkipPos(c: Ctx, s: St)
    ensures Skip(s).pos == s.pos + 1 && ScopeOf(c, Skip(s)) == ScopeOf(c, s)
  {
  }

  lemma {:induction false} StoreParts(c: Ctx, s: St, a: Expr<string>, v: Expr<string>)
    requires HereAt(c, s, Store(a, v), UnaryLevel)
    ensures var m, n := |Print(a)|, |Print(v)|;
            && Here(c, Skip(Skip(s)), a) && c.Peek(s.pos + 2 + m) == Comma
            && Sentence(v) && TokAt(c, s.pos + 3 + m, Print(v)) && c.Peek(s.pos + 3 + m + n) == RParen
            && |Print(Store(a, v))| == m + n + 4
    ensures c.Peek(s.pos) == Ident(StoreName) && c.Peek(s.pos + 1) == LParen
  {
    hide TokAt;
    OperandIs(Store(a, v));
    var e: Expr<string> := Store(a, v);
    var ts, us := Print(a), Print(v);
    assert Print(e) == [Ident(StoreName)] + ([LParen] + (ts + ([Comma] + (us + [RParen]))));
    NameHead(c, s.pos, StoreName, ts + ([Comma] + (us + [RParen])));
    TokPair(c, s.pos + 2, ts, us);
  }

  lemma {:induction false} StoreCode(a: Expr<string>, v: Expr<string>, sc: Scope)
    ensures CompExpr(Resolve(Store(a, v), sc)) ==
            CompExpr(Resolve(a, sc)) + Plain(Push) + CompExpr(Resolve(v, sc)) + Plain(StoreThroughStack)
    ensures Faults(Store(a, v), sc) == Faults(a, sc) + Faults(v, sc)
  {
    hide Plain;
  }

  lemma {:induction false} StoreOk(c: Ctx, a: Expr<string>, v: Expr<string>, s: St)
    requires HereAt(c, s, Store(a, v), UnaryLevel)
    ensures GenUnary(c, s) == After(c, s, Store(a, v), |Print(Store(a, v))|)
    decreases Store(a, v), 1
  {
    hide GenUnary, GenExpr, Print, Emit, Moved, Plain, TokAt, Resolve, CompExpr, Faults, ScopeOf, Skip;
    SkipPos(c, s);
    SkipPos(c, Skip(s));
    StoreCode(a, v, ScopeOf(c, s));
    StoreParts(c, s, a, v);
    NameParse(c, s, StoreName);
    var s2, sc, m, n := Skip(Skip(s)), ScopeOf(c, s), |Print(a)|, |Print(v)|;
    ExprOk(c, a, s2);
    var code, f := CompExpr(Resolve(a, sc)), Faults(a, sc);
    MovedSkip(Skip(s), m, code, f);
    MovedSkip(s, m + 1, code, f);
    MovedEmit(s, m + 2, code, f, Plain(Push));
    var code1 := code + Plain(Push);
    MovedPos(c, s, m + 2, code1, f);
    MovedSkip(s, m + 2, code1, f);
    var s3 := Moved(s, m + 3, code1, f);
    MovedPos(c, s, m + 3, code1, f);
    ExprOk(c, v, s3);
    var code', f' := CompExpr(Resolve(v, sc)), Faults(v, sc);
    MovedTwice(s, m + 3, code1, f, n, code', f');
    MovedPos(c, s, m + 3 + n, code1 + code', f + f');
    MovedSkip(s, m + 3 + n, code1 + code', f + f');
    MovedEmit(s, m + 4 + n, code1 + code', f + f', Plain(StoreThroughStack));
  }

  lemma {:induction false} CallParts(c: Ctx, s: St, f: string, args: Exprs<string>)
    requires HereAt(c, s, CallFn(f, args), UnaryLevel)
    ensures Sentences(args) && TokAt(c, s.pos + 2, PrintArgs(args))
    ensures c.Peek(s.pos + 2 + |PrintArgs(args)|) == RParen
    ensures |Print(CallFn(f, args))| == |PrintArgs(args)| + 3
    ensures c.Peek(s.pos) == Ident(f) && c.Peek(s.pos + 1) == LParen && f != LoadName && f != StoreName
  {
    hide TokAt, PrintArgs;
    OperandIs(CallFn(f, args));
    var ts := PrintArgs(args);
    NameHead(c, s.pos, f, ts + [RParen]);
    TokSplit(c, s.pos + 2, ts, [RParen]);
    TokOne(c, s.pos + 2 + |ts|, RParen);
  }

  lemma {:induction false} ResolvedLength(args: Exprs<string>, sc: Scope)
    ensures Count(ResolveArgs(args, sc)) == Length(args)
  {
    match args
    case NoArgs =>
    case Arg(_, rest) => ResolvedLength(rest, sc);
  }

  /** What a call is compiled to. */
  lemma {:induction false} CallTree(f: string, args: Exprs<string>, sc: Scope)
    ensures CompExpr(Resolve(CallFn(f, args), sc)) ==
            CompArgs(ResolveArgs(args, sc)) + Plain(Pops(Capped(Length(args)))) + [Call(Func(f))]
    ensures Faults(CallFn(f, args), sc) == FaultsArgs(args, sc) + OneIf(Length(args) > MaxArgs)
    ensures args.NoArgs? ==> CompArgs(ResolveArgs(args, sc)) == [] && FaultsArgs(args, sc) == 0 && Length(args) == 0
  {
    hide Plain, Pops;
    ResolvedLength(args, sc);
  }

  lemma {:induction false} CallOk(c: Ctx, f: string, args: Exprs<string>, s: St)
    requires HereAt(c, s, CallFn(f, args), UnaryLevel)
    ensures GenUnary(c, s) == After(c, s, CallFn(f, args), |Print(CallFn(f, args))|)
    decreases CallFn(f, args), 1
  {
    hide GenUnary, GenArgs, Print, Emit, Moved, HereAt, Pops, Plain, TokAt, PrintArgs, ScopeOf, Skip, CompExpr, Resolve,
      Faults, CompArgs, ResolveArgs, FaultsArgs, Length;
    SkipPos(c, s);
    SkipPos(c, Skip(s));
    CallParts(c, s, f, args);
    NameParse(c, s, f);
    var s2, sc, n := Skip(Skip(s)), ScopeOf(c, s), |PrintArgs(args)|;
    CallTree(f, args, sc);
    var pops := Plain(Pops(Capped(Length(args))));
    var g := OneIf(Length(args) > MaxArgs);
    match args
    case NoArgs =>
      NoTokens();
      SkipsAre(s);
      MovedFault(s, 3, [], 0, g);
      MovedEmit(s, 3, [], g, pops);
      MovedEmit(s, 3, [] + pops, g, [Call(Func(f))]);
    case Arg(_, _) =>
      StartsExpr(c, s.pos + 2, args);
      ArgsOk(c, args, s2);
      var code, h := CompArgs(ResolveArgs(args, sc)), FaultsArgs(args, sc);
      MovedSkip(Skip(s), n, code, h);
      MovedSkip(s, n + 1, code, h);
      MovedPos(c, s, n + 2, code, h);
      MovedSkip(s, n + 2, code, h);
      MovedFault(s, n + 3, code, h, g);
      MovedEmit(s, n + 3, code, h + g, pops);
      MovedEmit(s, n + 3, code + pops, h + g, [Call(Func(f))]);
  }

  lemma NoTokens()
    ensures PrintArgs(NoArgs) == []
  {
  }

  lemma SkipsAre(s: St)
    ensures Skip(Skip(Skip(s))) == Moved(s, 3, [], 0)
  {
    assert s.ops + [] == s.ops;
  }

  lemma {:induction false} ArgsParts(c: Ctx, s: St, e: Expr<string>, rest: Exprs<string>)
    requires TokAt(c, s.pos, PrintArgs(Arg(e, rest))) && Sentences(Arg(e, rest))
    requires c.Peek(s.pos + |PrintArgs(Arg(e, rest))|) == RParen
    ensures Here(c, s, e)
    ensures var n := |Print(e)|;
            if rest.NoArgs? then |PrintArgs(Arg(e, rest))| == n && c.Peek(s.pos + n) == RParen
            else
              && c.Peek(s.pos + n) == Comma && TokAt(c, s.pos + n + 1, PrintArgs(rest))
              && |PrintArgs(Arg(e, rest))| == n + 1 + |PrintArgs(rest)|
  {
    hide TokAt, Print, PrintArgs, Sentence;
    ArgsPrint(e, rest);
    if rest.Arg? {
      CommaPieces(c, s.pos, Print(e), PrintArgs(rest));
    }
  }

  lemma {:induction false} ArgsPrint(e: Expr<string>, rest: Exprs<string>)
    ensures PrintArgs(Arg(e, rest)) == if rest.NoArgs? then Print(e) else Print(e) + ([Comma] + PrintArgs(rest))
  {
    hide Print;
  }

  lemma CommaPieces(c: Ctx, pos: nat, ts: seq<Token>, us: seq<Token>)
    requires TokAt(c, pos, ts + ([Comma] + us))
    ensures TokAt(c, pos, ts) && c.Peek(pos + |ts|) == Comma && TokAt(c, pos + |ts| + 1, us)
  {
    hide *;
    TokSplit(c, pos, ts, [Comma] + us);
    TokHead(c, pos + |ts|, Comma, us);
  }

  lemma {:induction false} ArgsTree(e: Expr<string>, rest: Exprs<string>, sc: Scope)
    ensures CompArgs(ResolveArgs(Arg(e, rest), sc)) ==
            CompExpr(Resolve(e, sc)) + Plain(Push) + CompArgs(ResolveArgs(rest, sc))
    ensures FaultsArgs(Arg(e, rest), sc) == Faults(e, sc) + FaultsArgs(rest, sc)
    ensures Length(Arg(e, rest)) == 1 + Length(rest)
    ensures rest.NoArgs? ==> CompArgs(ResolveArgs(rest, sc)) == [] && FaultsArgs(rest, sc) == 0 && Length(rest) == 0
  {
    hide Plain, CompExpr, Resolve, Faults;
  }

  lemma {:induction false} ArgsOk(c: Ctx, args: Exprs<string>, s: St)
    requires args.Arg? && TokAt(c, s.pos, PrintArgs(args)) && Sentences(args)
    requires c.Peek(s.pos + |PrintArgs(args)|) == RParen
    ensures var sc := ScopeOf(c, s);
            GenArgs(c, s) ==
              (Moved(s, |PrintArgs(args)|, CompArgs(ResolveArgs(args, sc)), FaultsArgs(args, sc)), Length(args))
    decreases args
  {
    hide GenExpr, Print, PrintArgs, Emit, Moved, Push, TokAt, Here, Plain, ScopeOf, Skip, CompExpr, Resolve, Faults,
      CompArgs, ResolveArgs, FaultsArgs, Length;
    var e, rest := args.head, args.tail;
    ArgsParts(c, s, e, rest);
    ExprOk(c, e, s);
    ArgsTree(e, rest, ScopeOf(c, s));
    var sc, n := ScopeOf(c, s), |Print(e)|;
    var code, f := CompExpr(Resolve(e, sc)), Faults(e, sc);
    MovedEmit(s, n, code, f, Plain(Push));
    MovedPos(c, s, n, code + Plain(Push), f);
    if rest.Arg? {
      MovedSkip(s, n, code + Plain(Push), f);
      MovedPos(c, s, n + 1, code + Plain(Push), f);
      ArgsOk(c, rest, Moved(s, n + 1, code + Plain(Push), f));
      MovedTwice(s, n + 1, code + Plain(Push), f, |PrintArgs(rest)|, CompArgs(ResolveArgs(rest, sc)), FaultsArgs(rest, sc));
    } else {
      assert code + Plain(Push) + [] == code + Plain(Push);
    }
  }

  // ----- binary operators and assignments -----

  /** The first tokens of an expression are not a closing parenthesis, nor, unless it is an assignment, a name and an
      assignment sign. */
  lemma {:induction false} Starts(c: Ctx, pos: nat, e: Expr<string>, level: Level)
    requires Derives(level, e) && TokAt(c, pos, Print(e)) && c.Peek(pos + |Print(e)|) != AssignT
    ensures c.Peek(pos) != RParen && Print(e) != [] && !(c.Peek(pos).Ident? && c.Peek(pos + 1) == AssignT)
    decreases e, level.Left()
  {
    hide TokAt, Print;
    if level == UnaryLevel {
      OperandStarts(c, pos, e);
    } else if e.Bin? && level.Joins(e.op) {
      BinPrint(e.op, e.l, e.r);
      TokSplit(c, pos, Print(e.l), [OpT(e.op)] + Print(e.r));
      TokHead(c, pos + |Print(e.l)|, OpT(e.op), Print(e.r));
      Starts(c, pos, e.l, level);
    } else {
      Starts(c, pos, e, level.Next());
    }
  }

  lemma {:induction false} BinPrint(op: BinOp, l: Expr<string>, r: Expr<string>)
    ensures Print(Bin(op, l, r)) == Print(l) + ([OpT(op)] + Print(r))
  {
    hide TokAt;
  }

  lemma {:induction false} OperandStarts(c: Ctx, pos: nat, e: Expr<string>)
    requires Operand(e) && TokAt(c, pos, Print(e)) && c.Peek(pos + |Print(e)|) != AssignT
    ensures c.Peek(pos) != RParen && Print(e) != [] && !(c.Peek(pos).Ident? && c.Peek(pos + 1) == AssignT)
  {
    hide TokAt;
    var ts := Print(e);
    match e
    case Var(x) => TokOne(c, pos, Ident(x));
    case Load(_) => TwoTokens(c, pos, Ident(LoadName), LParen, ts);
    case Store(_, _) => TwoTokens(c, pos, Ident(StoreName), LParen, ts);
    case CallFn(f, _) => TwoTokens(c, pos, Ident(f), LParen, ts);
    case Bin(_, _, _) =>
    case Assign(_, _) =>
    case _ =>
      assert ts == [ts[0]] + ts[1..];
      TokHead(c, pos, ts[0], ts[1..]);
  }

  lemma {:induction false} SentenceStarts(c: Ctx, pos: nat, e: Expr<string>)
    requires Sentence(e) && TokAt(c, pos, Print(e)) && c.Peek(pos + |Print(e)|) != AssignT
    ensures c.Peek(pos) != RParen
  {
    hide TokAt;
    if e.Assign? {
      TokHead(c, pos, Ident(e.x), [AssignT] + Print(e.e));
    } else {
      Starts(c, pos, e, OrLevel);
    }
  }

  lemma TwoTokens(c: Ctx, pos: nat, t: Token, u: Token, ts: seq<Token>)
    requires TokAt(c, pos, ts) && |ts| >= 2 && ts[0] == t && ts[1] == u
    ensures c.Peek(pos) == t && c.Peek(pos + 1) == u
  {
    hide TokAt;
    assert ts == [t] + ([u] + ts[2..]);
    TokHead(c, pos, t, [u] + ts[2..]);
    TokHead(c, pos + 1, u, ts[2..]);
  }

  lemma {:induction false} StartsExpr(c: Ctx, pos: nat, args: Exprs<string>)
    requires args.Arg? && Sentences(args) && TokAt(c, pos, PrintArgs(args)) && c.Peek(pos + |PrintArgs(args)|) == RParen
    ensures c.Peek(pos) != RParen
  {
    hide TokAt, Print;
    var e, rest := args.head, args.tail;
    if rest.Arg? {
      var ts, us := Print(e), PrintArgs(rest);
      TokSplit(c, pos, ts, [Comma] + us);
      TokHead(c, pos + |ts|, Comma, us);
    }
    SentenceStarts(c, pos, e);
  }

  lemma {:induction false} AssignParts(c: Ctx, s: St, x: string, e: Expr<string>)
    requires Here(c, s, Assign(x, e)) && !c.Peek(s.pos + |Print(Assign(x, e))|).OpT?
    ensures c.Peek(s.pos) == Ident(x) && c.Peek(s.pos + 1) == AssignT && Here(c, Skip(Skip(s)), e)
    ensures |Print(Assign(x, e))| == |Print(e)| + 2
  {
    hide TokAt;
    var ts := Print(e);
    TokHead(c, s.pos, Ident(x), [AssignT] + ts);
    TokHead(c, s.pos + 1, AssignT, ts);
  }

  lemma {:induction false} AssignCode(x: string, e: Expr<string>, sc: Scope)
    ensures CompExpr(Resolve(Assign(x, e), sc)) ==
            CompExpr(Resolve(e, sc)) + (if Lookup(sc, x).Some? then Plain(WriteVar(Lookup(sc, x).value)) else [])
    ensures Faults(Assign(x, e), sc) == Faults(e, sc) + OneIf(Lookup(sc, x).None?)
  {
    hide Plain, WriteVar;
    assert CompExpr(Resolve(e, sc)) + [] == CompExpr(Resolve(e, sc));
  }

  lemma {:induction false} ExprOk(c: Ctx, e: Expr<string>, s: St)
    requires Here(c, s, e) && !c.Peek(s.pos + |Print(e)|).OpT?
    ensures GenExpr(c, s) == After(c, s, e, |Print(e)|)
    decreases e, 20
  {
    hide GenPrec, Print, Emit, Moved, Here, TokAt, PrecLoop, WriteVar, Plain, Resolve, CompExpr, Faults, ScopeOf, Skip;
    SkipPos(c, s);
    SkipPos(c, Skip(s));
    if e.Assign? {
      var x, e1 := e.x, e.e;
      AssignParts(c, s, x, e1);
      AssignCode(x, e1, ScopeOf(c, s));
      var sc, n := ScopeOf(c, s), |Print(e1)|;
      ExprOk(c, e1, Skip(Skip(s)));
      var code, f := CompExpr(Resolve(e1, sc)), Faults(e1, sc);
      MovedSkip(Skip(s), n, code, f);
      MovedSkip(s, n + 1, code, f);
      MovedPos(c, s, n + 2, code, f);
      var p := Lookup(sc, x);
      if p.Some? {
        MovedEmit(s, n + 2, code, f, Plain(WriteVar(p.value)));
      } else {
        MovedFault(s, n + 2, code, f, 1);
        assert code + [] == code;
      }
    } else {
      HereStarts(c, s, e);
      MovedPos(c, s, |Print(e)|, CompExpr(Resolve(e, ScopeOf(c, s))), Faults(e, ScopeOf(c, s)));
      LoopOk(c, e, OrLevel, 0, s);
      LoopEnds(c, After(c, s, e, |Print(e)|), 0);
    }
  }

  lemma HereStarts(c: Ctx, s: St, e: Expr<string>)
    requires Here(c, s, e) && !e.Assign?
    ensures HereAt(c, s, e, OrLevel) && !(c.Peek(s.pos).Ident? && c.Peek(s.pos + 1) == AssignT)
  {
    Starts(c, s.pos, e, OrLevel);
  }

  lemma {:induction false} LoopEnds(c: Ctx, s: St, min: nat)
    requires c.Peek(s.pos).OpT? ==> Prec(c.Peek(s.pos).op) < min
    ensures PrecLoop(c, s, min) == s
  {
  }

  /** What the precedence table gives the operators of a level. */
  function Binding(level: Level): nat { 10 * (7 - level.Left()) }

  lemma LevelPrec(level: Level, op: BinOp)
    requires level.Joins(op)
    ensures Prec(op) == Binding(level) < Binding(level.Next())
  {
  }

  // ----- what the grammar says of two operators -----

  /** The first operator binds looser: the second takes the operand between them. */
  predicate Looser(x: BinOp, y: BinOp) {
    match x
    case BitOr => y != BitOr
    case BitXor => y != BitOr && y != BitXor
    case BitAnd => y != BitOr && y != BitXor && y != BitAnd
    case EqOp => y == LtOp || y == LeOp || y == GtOp || y == GeOp || y == Plus || y == Minus
    case NeOp => y == LtOp || y == LeOp || y == GtOp || y == GeOp || y == Plus || y == Minus
    case LtOp => y == Plus || y == Minus
    case LeOp => y == Plus || y == Minus
    case GtOp => y == Plus || y == Minus
    case GeOp => y == Plus || y == Minus
    case Plus => false
    case Minus => false
  }

  function LevelOf(op: BinOp): (level: Level)
    ensures level.Joins(op) && forall l: Level :: l.Joins(op) ==> l == level
  {
    match op
    case BitOr => OrLevel
    case BitXor => XorLevel
    case BitAnd => AndLevel
    case EqOp => EqualLevel
    case NeOp => EqualLevel
    case Plus => SumLevel
    case Minus => SumLevel
    case _ => CompareLevel
  }

  /** An expression of a level is one of every looser level. */
  lemma {:induction false} Climbs(e: Expr<string>, m: Level, l: Level)
    requires Derives(m, e) && l.Left() >= m.Left() && (e.Bin? ==> m.Joins(e.op))
    ensures Derives(l, e)
    decreases l.Left()
  {
    if l != m { Climbs(e, m, l.Next()); }
  }

  lemma {:induction false} BinDerives(op: BinOp, a: Expr<string>, b: Expr<string>)
    requires Derives(LevelOf(op), a) && Derives(LevelOf(op).Next(), b)
    ensures Derives(LevelOf(op), Bin(op, a, b)) && Sentence(Bin(op, a, b))
  {
    Climbs(Bin(op, a, b), LevelOf(op), OrLevel);
  }

  lemma {:induction false} OperandDerives(e: Expr<string>, level: Level)
    requires Operand(e)
    ensures Derives(level, e)
  {
    OperandIs(e);
    Climbs(e, UnaryLevel, level);
  }

  /** Three operands and two operators: the tighter operator takes the operand between them, the first of two of one
      level. */
  lemma {:induction false} Grouping(c: Ctx, s: St, a: Expr<string>, x: BinOp, b: Expr<string>, y: BinOp, d: Expr<string>)
    requires Operand(a) && Operand(b) && Operand(d)
    requires TokAt(c, s.pos, Print(a) + ([OpT(x)] + (Print(b) + ([OpT(y)] + Print(d)))))
    requires var t := c.Peek(s.pos + |Print(a)| + |Print(b)| + |Print(d)| + 2); Follow(t) && !t.OpT?
    ensures GenExpr(c, s) == After(c, s, if Looser(x, y) then Bin(x, a, Bin(y, b, d)) else Bin(y, Bin(x, a, b), d),
                                   |Print(a)| + |Print(b)| + |Print(d)| + 2)
  {
    hide TokAt, GenExpr, Derives, Sentence, Operand, CompExpr, Resolve, Faults, Print;
    var p, q, r := Print(a), Print(b), Print(d);
    BinPrint(y, b, d);
    BinPrint(x, a, b);
    OperandDerives(a, LevelOf(x));
    OperandDerives(d, LevelOf(y).Next());
    if Looser(x, y) {
      OperandDerives(b, LevelOf(y));
      BinDerives(y, b, d);
      BinPrint(x, a, Bin(y, b, d));
      Climbs(Bin(y, b, d), LevelOf(y), LevelOf(x).Next());
      BinDerives(x, a, Bin(y, b, d));
      ExprOk(c, Bin(x, a, Bin(y, b, d)), s);
    } else {
      OperandDerives(b, LevelOf(x).Next());
      BinDerives(x, a, b);
      BinPrint(y, Bin(x, a, b), d);
      Climbs(Bin(x, a, b), LevelOf(x), LevelOf(y));
      BinDerives(y, Bin(x, a, b), d);
      assert p + ([OpT(x)] + (q + ([OpT(y)] + r))) == (p + ([OpT(x)] + q)) + ([OpT(y)] + r);
      ExprOk(c, Bin(y, Bin(x, a, b), d), s);
    }
  }

  // ----- every tree has a sentence -----

  function Wrap(level: Level, e: Expr<string>): Expr<string> { if Derives(level, e) then e else Paren(e) }

  /** A tree with the parentheses it needs. */
  function Bracketed(e: Expr<string>): Expr<string> {
    match e
    case Num(_) => e
    case Var(_) => e
    case Load(a) => Load(Bracketed(a))
    case Store(a, v) => Store(Bracketed(a), Bracketed(v))
    case CallFn(f, args) => CallFn(f, BracketedArgs(args))
    case Pos(e1) => Pos(Wrap(UnaryLevel, Bracketed(e1)))
    case Paren(e1) => Paren(Bracketed(e1))
    case Neg(e1) => Neg(Wrap(UnaryLevel, Bracketed(e1)))
    case Compl(e1) => Compl(Wrap(UnaryLevel, Bracketed(e1)))
    case Not(e1) => Not(Wrap(UnaryLevel, Bracketed(e1)))
    case Bin(op, l, r) => Bin(op, Wrap(LevelOf(op), Bracketed(l)), Wrap(LevelOf(op).Next(), Bracketed(r)))
    case Assign(x, e1) => Assign(x, Bracketed(e1))
  }

  function BracketedArgs(args: Exprs<string>): Exprs<string> {
    match args
    case NoArgs => NoArgs
    case Arg(e, rest) => Arg(Bracketed(e), BracketedArgs(rest))
  }

  /** No function is called like an intrinsic. */
  predicate Named(e: Expr<string>) {
    match e
    case Num(_) => true
    case Var(_) => true
    case Load(a) => Named(a)
    case Store(a, v) => Named(a) && Named(v)
    case CallFn(f, args) => f != LoadName && f != StoreName && NamedArgs(args)
    case Pos(e1) => Named(e1)
    case Paren(e1) => Named(e1)
    case Neg(e1) => Named(e1)
    case Compl(e1) => Named(e1)
    case Not(e1) => Named(e1)
    case Bin(_, l, r) => Named(l) && Named(r)
    case Assign(_, e1) => Named(e1)
  }

  predicate NamedArgs(args: Exprs<string>) {
    match args
    case NoArgs => true
    case Arg(e, rest) => Named(e) && NamedArgs(rest)
  }

  lemma {:induction false} WrapDerives(level: Level, e: Expr<string>)
    requires Sentence(e)
    ensures Derives(level, Wrap(level, e))
    ensures forall sc :: CompExpr(Resolve(Wrap(level, e), sc)) == CompExpr(Resolve(e, sc))
  {
    OperandDerives(Paren(e), level);
  }

  /** Every tree has a sentence that is compiled to its code. */
  lemma {:induction false} EveryTree(e: Expr<string>)
    requires Named(e)
    ensures Sentence(Bracketed(e)) && forall sc :: CompExpr(Resolve(Bracketed(e), sc)) == CompExpr(Resolve(e, sc))
    decreases e
  {
    hide Plain, UnaryCode, BinCode, Const, WriteVar, ReadVar, Derives, Wrap;
    match e
    case Bin(op, l, r) =>
      EveryTree(l);
      EveryTree(r);
      WrapDerives(LevelOf(op), Bracketed(l));
      WrapDerives(LevelOf(op).Next(), Bracketed(r));
      BinDerives(op, Wrap(LevelOf(op), Bracketed(l)), Wrap(LevelOf(op).Next(), Bracketed(r)));
    case Assign(_, e1) => EveryTree(e1);
    case Load(a) => EveryTree(a); OperandSentence(Bracketed(e));
    case Store(a, v) => EveryTree(a); EveryTree(v); OperandSentence(Bracketed(e));
    case CallFn(_, args) => EveryArgs(args); OperandSentence(Bracketed(e));
    case Paren(e1) => EveryTree(e1); OperandSentence(Bracketed(e));
    case Pos(e1) => EveryTree(e1); WrapDerives(UnaryLevel, Bracketed(e1)); OperandSentence(Bracketed(e));
    case Neg(e1) => EveryTree(e1); WrapDerives(UnaryLevel, Bracketed(e1)); OperandSentence(Bracketed(e));
    case Compl(e1) => EveryTree(e1); WrapDerives(UnaryLevel, Bracketed(e1)); OperandSentence(Bracketed(e));
    case Not(e1) => EveryTree(e1); WrapDerives(UnaryLevel, Bracketed(e1)); OperandSentence(Bracketed(e));
    case _ => OperandSentence(e);
  }

  lemma {:induction false} OperandSentence(e: Expr<string>)
    requires Operand(e)
    ensures Sentence(e)
  {
    OperandDerives(e, OrLevel);
  }

  lemma {:induction false} EveryArgs(args: Exprs<string>)
    requires NamedArgs(args)
    ensures Sentences(BracketedArgs(args)) && Length(BracketedArgs(args)) == Length(args)
    ensures forall sc :: CompArgs(ResolveArgs(BracketedArgs(args), sc)) == CompArgs(ResolveArgs(args, sc))
    ensures forall sc :: Count(ResolveArgs(BracketedArgs(args), sc)) == Count(ResolveArgs(args, sc))
    decreases args
  {
    hide Plain, Derives, Sentence;
    match args
    case NoArgs =>
    case Arg(e, rest) => EveryTree(e); EveryArgs(rest);
  }

  lemma {:induction false} BinParts(c: Ctx, s: St, op: BinOp, l: Expr<string>, r: Expr<string>, level: Level)
    requires HereAt(c, s, Bin(op, l, r), level) && level.Joins(op)
    ensures var m := |Print(l)|;
            && HereAt(c, s, l, level) && c.Peek(s.pos + m) == OpT(op)
            && Derives(level.Next(), r) && TokAt(c, s.pos + m + 1, Print(r))
            && |Print(Bin(op, l, r))| == m + 1 + |Print(r)|
  {
    hide TokAt, Print;
    var ts, us := Print(l), Print(r);
    BinPrint(op, l, r);
    TokSplit(c, s.pos, ts, [OpT(op)] + us);
    TokHead(c, s.pos + |ts|, OpT(op), us);
  }

  /** Parsing an expression of a level and the operators after it is parsing on after the whole expression: operators
      of the same level group to the left. */
  lemma {:induction false} LoopOk(c: Ctx, e: Expr<string>, level: Level, min: nat, s: St)
    requires HereAt(c, s, e, level) && min <= Binding(level)
    requires var t := c.Peek(s.pos + |Print(e)|); t.OpT? ==> Prec(t.op) <= Binding(level)
    ensures GenPrec(c, s, min) == PrecLoop(c, After(c, s, e, |Print(e)|), min)
    decreases e, 3 + level.Left()
  {
    hide Print, Emit, Moved, TokAt, PrecLoop, GenUnary, CompExpr, Faults, Resolve, Operand;
    if level == UnaryLevel {
      UnaryOk(c, e, s);
    } else if e.Bin? && level.Joins(e.op) {
      BinOk(c, e.op, e.l, e.r, level, min, s);
    } else {
      LoopOk(c, e, level.Next(), min, s);
    }
  }

  lemma LoopStep(c: Ctx, s: St, op: BinOp, min: nat)
    requires c.Peek(s.pos) == OpT(op) && Prec(op) >= min
    ensures PrecLoop(c, s, min) ==
            PrecLoop(c, Emit(GenPrec(c, Emit(Skip(s), Plain(Push)), Prec(op) + 1), Plain(PopLeft) + BinCode(op)), min)
  {
    hide Plain, BinCode, Emit, GenPrec;
  }

  lemma {:induction false} BinParsed(op: BinOp, l: Expr<string>, r: Expr<string>, sc: Scope)
    ensures CompExpr(Resolve(Bin(op, l, r), sc)) ==
            CompExpr(Resolve(l, sc)) + Plain(Push) + CompExpr(Resolve(r, sc)) + (Plain(PopLeft) + BinCode(op))
    ensures Faults(Bin(op, l, r), sc) == Faults(l, sc) + Faults(r, sc)
  {
    hide Plain, BinCode;
  }

  lemma {:induction false} BinOk(c: Ctx, op: BinOp, l: Expr<string>, r: Expr<string>, level: Level, min: nat, s: St)
    requires HereAt(c, s, Bin(op, l, r), level) && level.Joins(op) && min <= Binding(level)
    requires var t := c.Peek(s.pos + |Print(Bin(op, l, r))|); t.OpT? ==> Prec(t.op) <= Binding(level)
    ensures var e := Bin(op, l, r); GenPrec(c, s, min) == PrecLoop(c, After(c, s, e, |Print(e)|), min)
    decreases Bin(op, l, r), 1
  {
    hide Print, Emit, Moved, TokAt, PrecLoop, GenPrec, BinCode, Plain, Resolve, CompExpr, Faults, ScopeOf, Skip,
      Derives, Push, PopLeft;
    var q := Prec(op);
    BinParts(c, s, op, l, r, level);
    BinParsed(op, l, r, ScopeOf(c, s));
    var sc, m, n := ScopeOf(c, s), |Print(l)|, |Print(r)|;
    LevelPrec(level, op);
    LoopOk(c, l, level, min, s);
    var code, f := CompExpr(Resolve(l, sc)), Faults(l, sc);
    MovedPos(c, s, m, code, f);
    LoopStep(c, Moved(s, m, code, f), op, min);
    MovedSkip(s, m, code, f);
    MovedEmit(s, m + 1, code, f, Plain(Push));
    var s2 := Moved(s, m + 1, code + Plain(Push), f);
    MovedPos(c, s, m + 1, code + Plain(Push), f);
    LoopOk(c, r, level.Next(), q + 1, s2);
    var code', f' := CompExpr(Resolve(r, sc)), Faults(r, sc);
    MovedPos(c, s2, n, code', f');
    LoopEnds(c, Moved(s2, n, code', f'), q + 1);
    MovedTwice(s, m + 1, code + Plain(Push), f, n, code', f');
    MovedEmit(s, m + 1 + n, code + Plain(Push) + code', f + f', Plain(PopLeft) + BinCode(op));
  }
}
