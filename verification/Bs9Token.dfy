/** Tokens, the grammar, and the printing of syntax trees, whose parentheses are nodes. */
module Bs9Token {
  import opened Options
  import opened Words
  import opened Bs9Source

  datatype Token =
    | Eof
    | Ident(text: string)
    | Number(v: Word)
    | KwInt
    | KwReturn
    | KwIf
    | KwElse
    | KwWhile
    | KwAt
    | LParen
    | RParen
    | LBrace
    | RBrace
    | Comma
    | Semi
    | Tilde
    | Bang
    | AssignT
    | OpT(op: BinOp)

  function Prec(op: BinOp): (p: nat)
    ensures 10 <= p <= 60
  {
    match op
    case BitOr => 10
    case BitXor => 20
    case BitAnd => 30
    case EqOp => 40
    case NeOp => 40
    case LtOp => 50
    case LeOp => 50
    case GtOp => 50
    case GeOp => 50
    case Plus => 60
    case Minus => 60
  }

  const LoadName: string := "__load16"
  const StoreName: string := "__store16"

  // ----- the grammar of expressions -----

  /** The levels of the grammar, loosest first. An expression of a level is one of the next, or a list of those of the
      next, joined by the level's operators and grouped to the left. */
  datatype Level = OrLevel | XorLevel | AndLevel | EqualLevel | CompareLevel | SumLevel | UnaryLevel {
    function Next(): Level {
      match this
      case OrLevel => XorLevel
      case XorLevel => AndLevel
      case AndLevel => EqualLevel
      case EqualLevel => CompareLevel
      case CompareLevel => SumLevel
      case _ => UnaryLevel
    }

    predicate Joins(op: BinOp) {
      match this
      case OrLevel => op == BitOr
      case XorLevel => op == BitXor
      case AndLevel => op == BitAnd
      case EqualLevel => op == EqOp || op == NeOp
      case CompareLevel => op == LtOp || op == LeOp || op == GtOp || op == GeOp
      case SumLevel => op == Plus || op == Minus
      case UnaryLevel => false
    }

    /** Levels still to come, for termination. */
    function Left(): nat {
      match this
      case OrLevel => 6
      case XorLevel => 5
      case AndLevel => 4
      case EqualLevel => 3
      case CompareLevel => 2
      case SumLevel => 1
      case UnaryLevel => 0
    }
  }

  predicate Derives(level: Level, e: Expr<string>)
    decreases e, 1 + level.Left()
  {
    if level == UnaryLevel then Operand(e)
    else if e.Bin? && level.Joins(e.op) then Derives(level, e.l) && Derives(level.Next(), e.r)
    else Derives(level.Next(), e)
  }

  /** Prefix operators and primaries; the names of the two memory intrinsics are not names of functions. */
  predicate Operand(e: Expr<string>)
    decreases e, 0
  {
    match e
    case Num(_) => true
    case Var(_) => true
    case Load(a) => Sentence(a)
    case Store(a, v) => Sentence(a) && Sentence(v)
    case CallFn(f, args) => f != LoadName && f != StoreName && Sentences(args)
    case Pos(e1) => Derives(UnaryLevel, e1)
    case Paren(e1) => Sentence(e1)
    case Neg(e1) => Derives(UnaryLevel, e1)
    case Compl(e1) => Derives(UnaryLevel, e1)
    case Not(e1) => Derives(UnaryLevel, e1)
    case Bin(_, _, _) => false
    case Assign(_, _) => false
  }

  /** An assignment or an expression of the loosest level. */
  predicate Sentence(e: Expr<string>)
    decreases e, 8
  {
    if e.Assign? then Sentence(e.e) else Derives(OrLevel, e)
  }

  predicate Sentences(args: Exprs<string>) {
    match args
    case NoArgs => true
    case Arg(e, rest) => Sentence(e) && Sentences(rest)
  }

  // ----- printing -----

  function Print(e: Expr<string>): seq<Token> {
    match e
    case Num(v) => [Number(v)]
    case Var(x) => [Ident(x)]
    case Load(a) => [Ident(LoadName)] + ([LParen] + (Print(a) + [RParen]))
    case Store(a, v) => [Ident(StoreName)] + ([LParen] + (Print(a) + ([Comma] + (Print(v) + [RParen]))))
    case CallFn(f, args) => [Ident(f)] + ([LParen] + (PrintArgs(args) + [RParen]))
    case Pos(e1) => [OpT(Plus)] + Print(e1)
    case Paren(e1) => [LParen] + (Print(e1) + [RParen])
    case Neg(e1) => [OpT(Minus)] + Print(e1)
    case Compl(e1) => [Tilde] + Print(e1)
    case Not(e1) => [Bang] + Print(e1)
    case Bin(op, l, r) => Print(l) + ([OpT(op)] + Print(r))
    case Assign(x, e1) => [Ident(x)] + ([AssignT] + Print(e1))
  }

  function PrintArgs(args: Exprs<string>): seq<Token> {
    match args
    case NoArgs => []
    case Arg(e, NoArgs) => Print(e)
    case Arg(e, rest) => Print(e) + ([Comma] + PrintArgs(rest))
  }

  // ----- names -----

  datatype Scope = Scope(locals: seq<string>, globals: map<string, Word>)

  function IndexOf(names: seq<string>, name: string): Option<nat> {
    if names == [] then None
    else if names[0] == name then Some(0)
    else
      var i := IndexOf(names[1..], name);
      if i.Some? then Some(i.value + 1) else None
  }

  lemma {:induction false} IndexIs(names: seq<string>, name: string)
    ensures var i := IndexOf(names, name);
            if name in names
            then i.Some? && i.value < |names| && names[i.value] == name && name !in names[..i.value] else i.None?
  {
    if names != [] && names[0] != name {
      IndexIs(names[1..], name);
      var i := IndexOf(names[1..], name);
      if i.Some? {
        assert names[..i.value + 1] == [names[0]] + names[1..][..i.value];
      }
    }
  }

  /** Locals hide globals. */
  function Lookup(sc: Scope, name: string): Option<Place> {
    var i := IndexOf(sc.locals, name);
    if i.Some? then Some(Slot(i.value))
    else if name in sc.globals then Some(Abs(sc.globals[name]))
    else None
  }

  /** A local is found in the first slot of its name whatever the globals are; a global only if no local has its
      name; any other name is unknown. */
  lemma {:induction false} LocalsHide(sc: Scope, name: string)
    ensures var p := Lookup(sc, name);
            if name in sc.locals then
              && p.Some? && p.value.Slot? && p.value.i < |sc.locals| && sc.locals[p.value.i] == name
              && name !in sc.locals[..p.value.i]
            else if name in sc.globals then p == Some(Abs(sc.globals[name])) else p.None?
  {
    IndexIs(sc.locals, name);
  }

  /** The tree the compiler generates code for: an unknown variable reads as 0 and is not assigned. */
  function Resolve(e: Expr<string>, sc: Scope): Expr<Place> {
    match e
    case Num(v) => Num(v)
    case Var(x) =>
      var p := Lookup(sc, x);
      if p.Some? then Var(p.value) else Num(0)
    case Load(a) => Load(Resolve(a, sc))
    case Store(a, v) => Store(Resolve(a, sc), Resolve(v, sc))
    case CallFn(f, args) => CallFn(f, ResolveArgs(args, sc))
    case Pos(e1) => Pos(Resolve(e1, sc))
    case Paren(e1) => Paren(Resolve(e1, sc))
    case Neg(e1) => Neg(Resolve(e1, sc))
    case Compl(e1) => Compl(Resolve(e1, sc))
    case Not(e1) => Not(Resolve(e1, sc))
    case Bin(op, l, r) => Bin(op, Resolve(l, sc), Resolve(r, sc))
    case Assign(x, e1) =>
      var p := Lookup(sc, x);
      if p.Some? then Assign(p.value, Resolve(e1, sc)) else Resolve(e1, sc)
  }

  function ResolveArgs(args: Exprs<string>, sc: Scope): Exprs<Place> {
    match args
    case NoArgs => NoArgs
    case Arg(e, rest) => Arg(Resolve(e, sc), ResolveArgs(rest, sc))
  }

  function OneIf(b: bool): nat { if b then 1 else 0 }

  /** The errors reported: unknown variables and calls with more than four arguments. */
  function Faults(e: Expr<string>, sc: Scope): nat {
    match e
    case Num(_) => 0
    case Var(x) => OneIf(Lookup(sc, x).None?)
    case Load(a) => Faults(a, sc)
    case Store(a, v) => Faults(a, sc) + Faults(v, sc)
    case CallFn(_, args) => FaultsArgs(args, sc) + OneIf(Length(args) > 4)
    case Pos(e1) => Faults(e1, sc)
    case Paren(e1) => Faults(e1, sc)
    case Neg(e1) => Faults(e1, sc)
    case Compl(e1) => Faults(e1, sc)
    case Not(e1) => Faults(e1, sc)
    case Bin(_, l, r) => Faults(l, sc) + Faults(r, sc)
    case Assign(x, e1) => Faults(e1, sc) + OneIf(Lookup(sc, x).None?)
  }

  function FaultsArgs(args: Exprs<string>, sc: Scope): nat {
    match args
    case NoArgs => 0
    case Arg(e, rest) => Faults(e, sc) + FaultsArgs(rest, sc)
  }

  function Length(args: Exprs<string>): nat {
    match args
    case NoArgs => 0
    case Arg(_, rest) => 1 + Length(rest)
  }

  // ----- statements -----

  /** The statement ends in an `if` to which a following `else` would belong. */
  predicate Open(s: Stmt<string>) {
    match s
    case If(_, _) => true
    case IfElse(_, _, els) => Open(els)
    case While(_, body) => Open(body)
    case _ => false
  }

  predicate IsDecl(s: Stmt<string>) { s.Decl? || s.DeclInit? }

  /** A branch is braced if it is a declaration, or would take the `else` that follows it. */
  predicate Braced(s: Stmt<string>, beforeElse: bool) { IsDecl(s) || (beforeElse && Open(s)) }

  function PrintBranch(s: Stmt<string>, beforeElse: bool): seq<Token>
    decreases s, 1
  {
    if Braced(s, beforeElse) then [LBrace] + (PrintStmt(s) + [RBrace]) else PrintStmt(s)
  }

  function PrintCond(e: Expr<string>): seq<Token> { [LParen] + (Print(e) + [RParen]) }

  function PrintStmt(s: Stmt<string>): seq<Token>
    decreases s, 0
  {
    match s
    case Return(e) => [KwReturn] + (Print(e) + [Semi])
    case If(e, thn) => [KwIf] + (PrintCond(e) + PrintBranch(thn, false))
    case IfElse(e, thn, els) =>
      [KwIf] + (PrintCond(e) + (PrintBranch(thn, true) + ([KwElse] + PrintBranch(els, false))))
    case While(e, body) => [KwWhile] + (PrintCond(e) + PrintBranch(body, false))
    case Block(ss) => [LBrace] + (PrintStmts(ss) + [RBrace])
    case Do(e) => Print(e) + [Semi]
    case Empty => [Semi]
    case Decl(x) => [KwInt] + ([Ident(x)] + [Semi])
    case DeclInit(x, e) => [KwInt] + ([Ident(x)] + ([AssignT] + (Print(e) + [Semi])))
  }

  function PrintStmts(ss: Stmts<string>): seq<Token> {
    match ss
    case Nil => []
    case Cons(s, rest) => PrintStmt(s) + PrintStmts(rest)
  }

  predicate PrintableStmt(s: Stmt<string>) {
    match s
    case Return(e) => Sentence(e)
    case If(e, thn) => Sentence(e) && PrintableStmt(thn)
    case IfElse(e, thn, els) => Sentence(e) && PrintableStmt(thn) && PrintableStmt(els)
    case While(e, body) => Sentence(e) && PrintableStmt(body)
    case Block(ss) => PrintableStmts(ss)
    case Do(e) => Sentence(e)
    case DeclInit(_, e) => Sentence(e)
    case _ => true
  }

  predicate PrintableStmts(ss: Stmts<string>) {
    match ss
    case Nil => true
    case Cons(s, rest) => PrintableStmt(s) && PrintableStmts(rest)
  }

  // ----- declarations -----

  const MaxLocals: nat := 256

  predicate CanAdd(locals: seq<string>, x: string) { IndexOf(locals, x).None? && |locals| < MaxLocals }

  function AddName(locals: seq<string>, x: string): seq<string> {
    if CanAdd(locals, x) then locals + [x] else locals
  }

  /** A name that cannot be added gets slot 0. */
  function SlotOf(locals: seq<string>, x: string): nat { if CanAdd(locals, x) then |locals| else 0 }

  /** The locals known after a statement; blocks do not end scopes. */
  function Locals(s: Stmt<string>, locals: seq<string>): seq<string> {
    match s
    case If(_, thn) => Locals(thn, locals)
    case IfElse(_, thn, els) => Locals(els, Locals(thn, locals))
    case While(_, body) => Locals(body, locals)
    case Block(ss) => LocalsAll(ss, locals)
    case Decl(x) => AddName(locals, x)
    case DeclInit(x, _) => AddName(locals, x)
    case _ => locals
  }

  function LocalsAll(ss: Stmts<string>, locals: seq<string>): seq<string> {
    match ss
    case Nil => locals
    case Cons(s, rest) => LocalsAll(rest, Locals(s, locals))
  }

  function With(sc: Scope, locals: seq<string>): Scope { sc.(locals := locals) }

  /** Each name means what is known when the parser reaches it. */
  function ResolveStmt(s: Stmt<string>, sc: Scope): Stmt<Place> {
    match s
    case Return(e) => Return(Resolve(e, sc))
    case If(e, thn) => If(Resolve(e, sc), ResolveStmt(thn, sc))
    case IfElse(e, thn, els) =>
      IfElse(Resolve(e, sc), ResolveStmt(thn, sc), ResolveStmt(els, With(sc, Locals(thn, sc.locals))))
    case While(e, body) => While(Resolve(e, sc), ResolveStmt(body, sc))
    case Block(ss) => Block(ResolveStmts(ss, sc))
    case Do(e) => Do(Resolve(e, sc))
    case Empty => Empty
    case Decl(x) => Decl(Slot(SlotOf(sc.locals, x)))
    case DeclInit(x, e) => DeclInit(Slot(SlotOf(sc.locals, x)), Resolve(e, With(sc, AddName(sc.locals, x))))
  }

  function ResolveStmts(ss: Stmts<string>, sc: Scope): Stmts<Place> {
    match ss
    case Nil => Nil
    case Cons(s, rest) => Cons(ResolveStmt(s, sc), ResolveStmts(rest, With(sc, Locals(s, sc.locals))))
  }

  function FaultsStmt(s: Stmt<string>, sc: Scope): nat {
    match s
    case Return(e) => Faults(e, sc)
    case If(e, thn) => Faults(e, sc) + FaultsStmt(thn, sc)
    case IfElse(e, thn, els) =>
      Faults(e, sc) + FaultsStmt(thn, sc) + FaultsStmt(els, With(sc, Locals(thn, sc.locals)))
    case While(e, body) => Faults(e, sc) + FaultsStmt(body, sc)
    case Block(ss) => FaultsStmts(ss, sc)
    case Do(e) => Faults(e, sc)
    case Empty => 0
    case Decl(x) => OneIf(!CanAdd(sc.locals, x))
    case DeclInit(x, e) => OneIf(!CanAdd(sc.locals, x)) + Faults(e, With(sc, AddName(sc.locals, x)))
  }

  function FaultsStmts(ss: Stmts<string>, sc: Scope): nat {
    match ss
    case Nil => 0
    case Cons(s, rest) => FaultsStmt(s, sc) + FaultsStmts(rest, With(sc, Locals(s, sc.locals)))
  }
}
