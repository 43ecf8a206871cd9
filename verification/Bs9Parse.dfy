/** The compiler's recursive-descent parser, which emits operations as it goes, as functions on its state. */
module Bs9Parse {
  import opened Words
  import opened Bs9Ops
  import opened Bs9Source
  import opened Bs9Gen
  import opened Bs9Token

  /** Token position, operations and locals of the current function, error count, next label number. */
  datatype St = St(pos: nat, ops: seq<Op>, errors: nat, locals: seq<string>, labels: nat)

  /** What does not change while a function is parsed. */
  datatype Ctx = Ctx(toks: seq<Token>, globals: map<string, Word>, fn: string) {
    function Peek(pos: nat): Token { if pos < |toks| then toks[pos] else Eof }

    /** Tokens left, for termination. */
    function Left(pos: nat): nat { if pos < |toks| then |toks| - pos else 0 }
  }

  function Skip(s: St): St { s.(pos := s.pos + 1) }

  function Fault(s: St, n: nat): St { s.(errors := s.errors + n) }

  function Emit(s: St, ops: seq<Op>): St { s.(ops := s.ops + ops) }

  function Expect(c: Ctx, s: St, t: Token): (r: St)
    ensures r.pos >= s.pos
  {
    if c.Peek(s.pos) == t then Skip(s) else Fault(s, 1)
  }

  function ScopeOf(c: Ctx, s: St): Scope { Scope(s.locals, c.globals) }

  function GenExpr(c: Ctx, s: St): (r: St)
    ensures r.pos > s.pos
    decreases c.Left(s.pos), 4
  {
    var t := c.Peek(s.pos);
    if t.Ident? && c.Peek(s.pos + 1) == AssignT then
      var r := GenExpr(c, Skip(Skip(s)));
      var x := Lookup(ScopeOf(c, r), t.text);
      if x.Some? then Emit(r, Plain(WriteVar(x.value))) else Fault(r, 1)
    else GenPrec(c, s, 0)
  }

  function GenPrec(c: Ctx, s: St, min: nat): (r: St)
    ensures r.pos > s.pos
    decreases c.Left(s.pos), 3
  {
    PrecLoop(c, GenUnary(c, s), min)
  }

  /** The operators of precedence min and more that follow an operand. */
  function PrecLoop(c: Ctx, s: St, min: nat): (r: St)
    ensures r.pos >= s.pos
    decreases c.Left(s.pos), 2
  {
    var t := c.Peek(s.pos);
    if t.OpT? && Prec(t.op) >= min then
      var r := GenPrec(c, Emit(Skip(s), Plain(Push)), Prec(t.op) + 1);
      PrecLoop(c, Emit(r, Plain(PopLeft) + BinCode(t.op)), min)
    else s
  }

  function GenUnary(c: Ctx, s: St): (r: St)
    ensures r.pos > s.pos
    decreases c.Left(s.pos), 1
  {
    var t := c.Peek(s.pos);
    if t == OpT(Plus) then GenUnary(c, Skip(s))
    else if t == OpT(Minus) then Emit(GenUnary(c, Skip(s)), UnaryCode(NegOp))
    else if t == Tilde then Emit(GenUnary(c, Skip(s)), UnaryCode(ComplOp))
    else if t == Bang then Emit(GenUnary(c, Skip(s)), UnaryCode(NotOp))
    else GenPrimary(c, s)
  }

  function GenPrimary(c: Ctx, s: St): (r: St)
    ensures r.pos > s.pos
    decreases c.Left(s.pos), 0
  {
    match c.Peek(s.pos)
    case Number(v) => Emit(Skip(s), Plain(Const(v)))
    case LParen => Expect(c, GenExpr(c, Skip(s)), RParen)
    case Ident(name) =>
      if c.Peek(s.pos + 1) == LParen then
        if name == LoadName then GenLoad(c, Skip(Skip(s)))
        else if name == StoreName then GenStore(c, Skip(Skip(s)))
        else GenCall(c, Skip(Skip(s)), name)
      else GenVar(c, Skip(s), name)
    case _ => Skip(Emit(Fault(s, 1), Plain(Const(0))))
  }

  function GenVar(c: Ctx, s: St, name: string): (r: St)
    ensures r.pos == s.pos
  {
    var x := Lookup(ScopeOf(c, s), name);
    if x.Some? then Emit(s, Plain(ReadVar(x.value))) else Emit(Fault(s, 1), Plain(Const(0)))
  }

  function GenLoad(c: Ctx, s: St): (r: St)
    ensures r.pos >= s.pos
    decreases c.Left(s.pos), 5
  {
    Emit(Expect(c, GenExpr(c, s), RParen), UnaryCode(LoadOp))
  }

  function GenStore(c: Ctx, s: St): (r: St)
    ensures r.pos >= s.pos
    decreases c.Left(s.pos), 5
  {
    var a := Expect(c, Emit(GenExpr(c, s), Plain(Push)), Comma);
    Emit(Expect(c, GenExpr(c, a), RParen), Plain(StoreThroughStack))
  }

  /** Arguments are pushed, counted and, four at most, popped into R1..R4. */
  function GenCall(c: Ctx, s: St, name: string): (r: St)
    ensures r.pos >= s.pos
    decreases c.Left(s.pos), 6
  {
    var (a, argc) :=
      if c.Peek(s.pos) == RParen then (Skip(s), 0)
      else
        var (a, argc) := GenArgs(c, s);
        (Expect(c, a, RParen), argc);
    Emit(Emit(Fault(a, OneIf(argc > MaxArgs)), Plain(Pops(Capped(argc)))), [Call(Func(name))])
  }

  function GenArgs(c: Ctx, s: St): (r: (St, nat))
    ensures r.0.pos >= s.pos
    decreases c.Left(s.pos), 5
  {
    var a := Emit(GenExpr(c, s), Plain(Push));
    if c.Peek(a.pos) == Comma then
      var (r, argc) := GenArgs(c, Skip(a));
      (r, argc + 1)
    else (a, 1)
  }

  /** One argument; more follow a comma. */
  lemma {:induction false} ArgsStep(c: Ctx, s: St)
    ensures var a := Emit(GenExpr(c, s), Plain(Push));
            GenArgs(c, s) ==
              if c.Peek(a.pos) == Comma then (GenArgs(c, Skip(a)).0, GenArgs(c, Skip(a)).1 + 1) else (a, 1)
  {
    hide GenExpr, Emit, Plain;
  }

  // ----- statements -----

  /** The text of a token where a name is expected; only a name's own text matters, another token is an error. */
  function NameOf(t: Token): string { if t.Ident? then t.text else "" }

  function ExpectName(c: Ctx, s: St): (r: St)
    ensures r.pos >= s.pos
  {
    if c.Peek(s.pos).Ident? then Skip(s) else Fault(s, 1)
  }

  function AddLocal(s: St, x: string): St {
    if CanAdd(s.locals, x) then s.(locals := s.locals + [x]) else Fault(s, 1)
  }

  function NewLabels(s: St): St { s.(labels := s.labels + 2) }

  function ParseCond(c: Ctx, s: St): (r: St)
    ensures r.pos >= s.pos
  {
    Expect(c, GenExpr(c, Expect(c, s, LParen)), RParen)
  }

  function ParseStmt(c: Ctx, s: St): (r: St)
    ensures r.pos > s.pos
    decreases c.Left(s.pos), 8
  {
    var t := c.Peek(s.pos);
    if t == LBrace then ParseBlock(c, s)
    else if t == KwReturn then Emit(Expect(c, GenExpr(c, Skip(s)), Semi), [Jabs(End(c.fn))])
    else if t == KwIf then ParseIf(c, Skip(s))
    else if t == KwWhile then ParseWhile(c, Skip(s))
    else if t == Semi then Emit(Skip(s), [Nop])
    else Expect(c, GenExpr(c, s), Semi)
  }

  function ParseIf(c: Ctx, s: St): (r: St)
    ensures r.pos >= s.pos
    decreases c.Left(s.pos), 11
  {
    var n := s.labels;
    var thn := ParseStmt(c, Emit(ParseCond(c, NewLabels(s)), [JabsIfZero(Else(n))]));
    if c.Peek(thn.pos) == KwElse then
      var els := ParseStmt(c, Emit(Emit(Skip(thn), [Jabs(IfEnd(n + 1))]), [Mark(Else(n))]));
      Emit(els, [Mark(IfEnd(n + 1))])
    else Emit(thn, [Mark(Else(n))])
  }

  function ParseWhile(c: Ctx, s: St): (r: St)
    ensures r.pos >= s.pos
    decreases c.Left(s.pos), 11
  {
    var n := s.labels;
    var top := Emit(NewLabels(s), [Mark(Top(n))]);
    var body := ParseStmt(c, Emit(ParseCond(c, top), [JabsIfZero(Wend(n + 1))]));
    Emit(Emit(body, [Jabs(Top(n))]), [Mark(Wend(n + 1))])
  }

  function ParseBlock(c: Ctx, s: St): (r: St)
    ensures c.Peek(s.pos) != Eof ==> r.pos > s.pos
    ensures r.pos >= s.pos
    decreases c.Left(s.pos), if c.Peek(s.pos) == LBrace then 7 else 10
  {
    Expect(c, BlockLoop(c, Expect(c, s, LBrace)), RBrace)
  }

  function BlockLoop(c: Ctx, s: St): (r: St)
    ensures r.pos >= s.pos
    ensures c.Peek(s.pos) != Eof && c.Peek(s.pos) != RBrace ==> r.pos > s.pos
    ensures c.Peek(s.pos) == RBrace ==> r == s
    decreases c.Left(s.pos), 9
  {
    var t := c.Peek(s.pos);
    if t == RBrace || t == Eof then s
    else if t == KwInt then BlockLoop(c, ParseDecl(c, Skip(s)))
    else BlockLoop(c, ParseStmt(c, s))
  }

  function ParseDecl(c: Ctx, s: St): (r: St)
    ensures r.pos >= s.pos
  {
    var x := NameOf(c.Peek(s.pos));
    var slot := SlotOf(s.locals, x);
    var added := AddLocal(ExpectName(c, s), x);
    var init :=
      if c.Peek(added.pos) == AssignT then Emit(GenExpr(c, Skip(added)), Plain(WriteVar(Slot(slot)))) else added;
    Expect(c, init, Semi)
  }
}
