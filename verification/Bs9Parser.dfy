/** The parser as it runs: one pass over the token buffer that moves its position, appends operations, adds
    locals and counts errors. Every method does what the function of its name says. */
module Bs9Parser {
  import opened Words
  import opened Bs9Ops
  import opened Bs9Source
  import opened Bs9Gen
  import opened Bs9Lower
  import opened Bs9Token
  import P = Bs9Parse
  import Q = Bs9ParseProgram

  class Parser {
    const toks: seq<Token>
    var pos: nat
    var ops: seq<Op>
    var errors: nat
    var locals: seq<string>
    var labels: nat
    var globals: map<string, Word>
    var fn: string
    var units: seq<Unit>

    constructor (tokens: seq<Token>)
      ensures toks == tokens && Result() == Q.Start0
    {
      toks := tokens;
      pos, ops, errors, locals, labels, globals, fn, units := 0, [], 0, [], 0, map[], "", [];
    }

    ghost function C(): P.Ctx
      reads this`globals, this`fn
    {
      P.Ctx(toks, globals, fn)
    }

    ghost function S(): P.St
      reads this`pos, this`ops, this`errors, this`locals, this`labels
    {
      P.St(pos, ops, errors, locals, labels)
    }

    ghost function Result(): Q.Ps
      reads this`pos, this`errors, this`labels, this`globals, this`units
    {
      Q.Ps(pos, errors, labels, globals, units)
    }

    function Peek(): Token
      reads this`pos
    {
      if pos < |toks| then toks[pos] else Eof
    }

    method Accept(t: Token) returns (ok: bool)
      requires t != Eof
      modifies this`pos
      ensures ok == (C().Peek(old(pos)) == t) && S() == (if ok then P.Skip(old(S())) else old(S()))
    {
      ok := Peek() == t;
      if ok {
        pos := pos + 1;
      }
    }

    method Expect(t: Token)
      requires t != Eof
      modifies this`pos, this`errors
      ensures S() == P.Expect(C(), old(S()), t)
    {
      var ok := Accept(t);
      if !ok {
        errors := errors + 1;
      }
    }

    method Next()
      modifies this`pos
      ensures S() == P.Skip(old(S()))
    {
      pos := pos + 1;
    }

    method Fault()
      modifies this`errors
      ensures S() == P.Fault(old(S()), 1)
    {
      errors := errors + 1;
    }

    method NewLabels() returns (n: nat)
      modifies this`labels
      ensures n == old(labels) && S() == P.NewLabels(old(S()))
    {
      n := labels;
      labels := labels + 2;
    }

    method Emit(more: seq<Op>)
      modifies this`ops
      ensures S() == P.Emit(old(S()), more)
    {
      ops := ops + more;
    }

    method GenExpr()
      modifies this`pos, this`ops, this`errors
      ensures S() == P.GenExpr(C(), old(S()))
      decreases C().Left(pos), 4
    {
      hide P.GenPrec, P.PrecLoop, P.GenUnary, P.GenPrimary, P.GenCall, P.GenArgs, P.GenLoad, P.GenStore,
           P.GenVar, P.ParseStmt, P.ParseIf, P.ParseWhile, P.ParseBlock, P.BlockLoop, P.ParseDecl, P.ParseCond,
           Plain, Const, ReadVar, WriteVar, BinCode, UnaryCode, P.Emit, Lookup;
      var t := Peek();
      if t.Ident? && pos + 1 < |toks| && toks[pos + 1] == AssignT {
        Next();
        Next();
        GenExpr();
        var x := Lookup(Scope(locals, globals), t.text);
        if x.Some? {
          Emit(Plain(WriteVar(x.value)));
        } else {
          Fault();
        }
      } else {
        GenPrec(0);
      }
    }

    method GenPrec(min: nat)
      modifies this`pos, this`ops, this`errors
      ensures S() == P.GenPrec(C(), old(S()), min)
      decreases C().Left(pos), 3
    {
      hide P.GenExpr, P.GenUnary, P.GenPrimary, P.GenCall, P.GenArgs, P.GenLoad, P.GenStore, P.GenVar,
           P.ParseStmt, P.ParseIf, P.ParseWhile, P.ParseBlock, P.BlockLoop, P.ParseDecl, P.ParseCond, Plain,
           Const, ReadVar, WriteVar, BinCode, UnaryCode, P.Emit, Lookup;
      ghost var c := C();
      GenUnary();
      ghost var operand := S();
      while Peek().OpT? && Prec(Peek().op) >= min
        invariant C() == c && pos >= operand.pos
        invariant S() == P.St(pos, ops, errors, operand.locals, operand.labels)
        invariant P.PrecLoop(c, S(), min) == P.PrecLoop(c, operand, min)
        decreases c.Left(pos)
      {
        var op := Peek().op;
        Next();
        Emit(Plain(Push));
        GenPrec(Prec(op) + 1);
        Emit(Plain(PopLeft) + BinCode(op));
      }
    }

    method GenUnary()
      modifies this`pos, this`ops, this`errors
      ensures S() == P.GenUnary(C(), old(S()))
      decreases C().Left(pos), 1
    {
      hide P.GenExpr, P.GenPrec, P.PrecLoop, P.GenPrimary, P.GenCall, P.GenArgs, P.GenLoad, P.GenStore,
           P.GenVar, P.ParseStmt, P.ParseIf, P.ParseWhile, P.ParseBlock, P.BlockLoop, P.ParseDecl, P.ParseCond,
           Plain, Const, ReadVar, WriteVar, BinCode, UnaryCode, P.Emit, Lookup;
      var t := Peek();
      if t == OpT(Plus) {
        Next();
        GenUnary();
      } else if t == OpT(Minus) {
        Next();
        GenUnary();
        Emit(UnaryCode(NegOp));
      } else if t == Tilde {
        Next();
        GenUnary();
        Emit(UnaryCode(ComplOp));
      } else if t == Bang {
        Next();
        GenUnary();
        Emit(UnaryCode(NotOp));
      } else {
        GenPrimary();
      }
    }

    method GenPrimary()
      modifies this`pos, this`ops, this`errors
      ensures S() == P.GenPrimary(C(), old(S()))
      decreases C().Left(pos), 0
    {
      hide P.GenExpr, P.GenPrec, P.PrecLoop, P.GenUnary, P.GenCall, P.GenArgs, P.ParseStmt, P.ParseIf,
           P.ParseWhile, P.ParseBlock, P.BlockLoop, P.ParseDecl, P.ParseCond, Plain, Const, ReadVar, WriteVar,
           BinCode, UnaryCode, P.Emit, Lookup, P.GenVar, P.GenLoad, P.GenStore, P.Expect;
      var t := Peek();
      if t.Number? {
        Next();
        Emit(Plain(Const(t.v)));
      } else if t == LParen {
        Next();
        GenExpr();
        Expect(RParen);
      } else if t.Ident? {
        Next();
        var call := Accept(LParen);
        if !call {
          GenVar(t.text);
        } else if t.text == LoadName {
          GenLoad();
        } else if t.text == StoreName {
          GenStore();
        } else {
          GenCall(t.text);
        }
      } else {
        Fault();
        Emit(Plain(Const(0)));
        Next();
      }
    }

    method GenVar(name: string)
      modifies this`ops, this`errors
      ensures S() == P.GenVar(C(), old(S()), name)
    {
      hide Plain, Const, ReadVar;
      var x := Lookup(Scope(locals, globals), name);
      if x.Some? {
        Emit(Plain(ReadVar(x.value)));
      } else {
        Fault();
        Emit(Plain(Const(0)));
      }
    }

    method GenLoad()
      modifies this`pos, this`ops, this`errors
      ensures S() == P.GenLoad(C(), old(S()))
      decreases C().Left(pos), 5
    {
      hide P.GenExpr, P.Emit, P.Expect, UnaryCode;
      GenExpr();
      Expect(RParen);
      Emit(UnaryCode(LoadOp));
    }

    method GenStore()
      modifies this`pos, this`ops, this`errors
      ensures S() == P.GenStore(C(), old(S()))
      decreases C().Left(pos), 5
    {
      hide P.GenExpr, P.Emit, Plain;
      GenExpr();
      Emit(Plain(Push));
      Expect(Comma);
      GenExpr();
      Expect(RParen);
      Emit(Plain(StoreThroughStack));
    }

    method GenCall(name: string)
      modifies this`pos, this`ops, this`errors
      ensures S() == P.GenCall(C(), old(S()), name)
      decreases C().Left(pos), 6
    {
      hide P.GenExpr, P.GenPrec, P.PrecLoop, P.GenUnary, P.GenPrimary, P.GenArgs, P.GenLoad, P.GenStore,
           P.GenVar, P.ParseStmt, P.ParseIf, P.ParseWhile, P.ParseBlock, P.BlockLoop, P.ParseDecl, P.ParseCond,
           Plain, Const, ReadVar, WriteVar, BinCode, UnaryCode, P.Emit, Lookup, P.Expect, Pops;
      var argc := 0;
      var none := Accept(RParen);
      if !none {
        argc := GenArgs();
        Expect(RParen);
      }
      if argc > MaxArgs {
        Fault();
        argc := MaxArgs;
      }
      PopArgs(argc);
      Emit([Call(Func(name))]);
    }

    method GenArgs() returns (argc: nat)
      modifies this`pos, this`ops, this`errors
      ensures (S(), argc) == P.GenArgs(C(), old(S()))
      decreases C().Left(pos), 5
    {
      hide P.GenExpr, P.GenArgs, Plain, P.Emit;
      ghost var c, s0 := C(), S();
      argc := 0;
      var more := true;
      while more
        invariant C() == c && pos >= s0.pos && S() == P.St(pos, ops, errors, s0.locals, s0.labels)
        invariant more ==> P.GenArgs(c, s0) == (P.GenArgs(c, S()).0, argc + P.GenArgs(c, S()).1)
        invariant !more ==> P.GenArgs(c, s0) == (S(), argc)
        decreases more, c.Left(pos)
      {
        P.ArgsStep(c, S());
        GenExpr();
        Emit(Plain(Push));
        argc := argc + 1;
        more := Accept(Comma);
      }
    }

    /** Pop the last argument first. */
    method PopArgs(argc: nat)
      requires argc <= MaxArgs
      modifies this`ops
      ensures S() == P.Emit(old(S()), Plain(Pops(argc)))
    {
      hide Plain, Pop, Pops;
      ghost var before := ops;
      var i := argc;
      while i > 0
        invariant 0 <= i <= argc && ops + Plain(Pops(i)) == before + Plain(Pops(argc))
      {
        PopsStep(ops, i);
        Emit(Plain(Pop(i)));
        i := i - 1;
      }
      PopsNone(ops);
    }

    // ----- statements -----

    method ParseStatement()
      modifies this`pos, this`ops, this`errors, this`locals, this`labels
      ensures S() == P.ParseStmt(C(), old(S()))
      decreases C().Left(pos), 8
    {
      hide P.GenExpr, P.GenPrec, P.PrecLoop, P.GenUnary, P.GenPrimary, P.GenCall, P.GenArgs, P.GenLoad,
           P.GenStore, P.GenVar, P.ParseIf, P.ParseWhile, P.ParseBlock, P.BlockLoop, P.ParseDecl, P.ParseCond,
           Plain, Const, ReadVar, WriteVar, BinCode, UnaryCode, P.Emit, Lookup;
      var t := Peek();
      if t == LBrace {
        ParseBlock();
      } else if t == KwReturn {
        Next();
        GenExpr();
        Expect(Semi);
        Emit([Jabs(End(fn))]);
      } else if t == KwIf {
        Next();
        ParseIf();
      } else if t == KwWhile {
        Next();
        ParseWhile();
      } else if t == Semi {
        Next();
        Emit([Nop]);
      } else {
        GenExpr();
        Expect(Semi);
      }
    }

    method ParseCondition()
      modifies this`pos, this`ops, this`errors
      ensures S() == P.ParseCond(C(), old(S()))
    {
      hide P.GenExpr, P.GenPrec, P.PrecLoop, P.GenUnary, P.GenPrimary, P.GenCall, P.GenArgs, P.GenLoad,
           P.GenStore, P.GenVar, P.ParseStmt, P.ParseIf, P.ParseWhile, P.ParseBlock, P.BlockLoop, P.ParseDecl,
           Plain, Const, ReadVar, WriteVar, BinCode, UnaryCode, P.Emit, Lookup;
      Expect(LParen);
      GenExpr();
      Expect(RParen);
    }

    method ParseIf()
      modifies this`pos, this`ops, this`errors, this`locals, this`labels
      ensures S() == P.ParseIf(C(), old(S()))
      decreases C().Left(pos), 11
    {
      hide P.GenExpr, P.GenPrec, P.PrecLoop, P.GenUnary, P.GenPrimary, P.GenCall, P.GenArgs, P.GenLoad,
           P.GenStore, P.GenVar, P.ParseStmt, P.ParseWhile, P.ParseBlock, P.BlockLoop, P.ParseDecl,
           P.ParseCond, Plain, Const, ReadVar, WriteVar, BinCode, UnaryCode, P.Emit, Lookup, P.Expect, P.Fault;
      var n := NewLabels();
      ParseCondition();
      Emit([JabsIfZero(Else(n))]);
      ParseStatement();
      ParseElse(n);
    }

    method ParseElse(n: nat)
      modifies this`pos, this`ops, this`errors, this`locals, this`labels
      ensures var (c, s) := (C(), old(S()));
              S() == if c.Peek(s.pos) != KwElse then P.Emit(s, [Mark(Else(n))])
                     else P.Emit(P.ParseStmt(c, P.Emit(P.Emit(P.Skip(s), [Jabs(IfEnd(n + 1))]), [Mark(Else(n))])),
                                 [Mark(IfEnd(n + 1))])
      decreases C().Left(pos), 9
    {
      hide P.GenExpr, P.GenPrec, P.PrecLoop, P.GenUnary, P.GenPrimary, P.GenCall, P.GenArgs, P.GenLoad,
           P.GenStore, P.GenVar, P.ParseStmt, P.ParseIf, P.ParseWhile, P.ParseBlock, P.BlockLoop, P.ParseDecl,
           P.ParseCond, Plain, Const, ReadVar, WriteVar, BinCode, UnaryCode, P.Emit, Lookup, P.Expect, P.Fault;
      var other := Accept(KwElse);
      if other {
        Emit([Jabs(IfEnd(n + 1))]);
        Emit([Mark(Else(n))]);
        ParseStatement();
        Emit([Mark(IfEnd(n + 1))]);
      } else {
        Emit([Mark(Else(n))]);
      }
    }

    method ParseWhile()
      modifies this`pos, this`ops, this`errors, this`locals, this`labels
      ensures S() == P.ParseWhile(C(), old(S()))
      decreases C().Left(pos), 11
    {
      hide P.GenExpr, P.GenPrec, P.PrecLoop, P.GenUnary, P.GenPrimary, P.GenCall, P.GenArgs, P.GenLoad,
           P.GenStore, P.GenVar, P.ParseStmt, P.ParseIf, P.ParseBlock, P.BlockLoop, P.ParseDecl, P.ParseCond,
           Plain, Const, ReadVar, WriteVar, BinCode, UnaryCode, P.Emit, Lookup;
      var n := NewLabels();
      Emit([Mark(Top(n))]);
      ParseCondition();
      Emit([JabsIfZero(Wend(n + 1))]);
      ParseStatement();
      Emit([Jabs(Top(n))]);
      Emit([Mark(Wend(n + 1))]);
    }

    method ParseBlock()
      modifies this`pos, this`ops, this`errors, this`locals, this`labels
      ensures S() == P.ParseBlock(C(), old(S()))
      decreases C().Left(pos), if C().Peek(pos) == LBrace then 7 else 10
    {
      hide P.BlockLoop;
      Expect(LBrace);
      ghost var c, s0 := C(), S();
      while Peek() != RBrace && Peek() != Eof
        invariant C() == c && pos >= s0.pos && P.BlockLoop(c, S()) == P.BlockLoop(c, s0)
        decreases c.Left(pos)
      {
        ParseItem();
      }
      BlockEnds(c, S());
      Expect(RBrace);
    }

    /** A statement or declaration of a block. */
    method ParseItem()
      requires Peek() != RBrace && Peek() != Eof
      modifies this`pos, this`ops, this`errors, this`locals, this`labels
      ensures pos > old(pos) && P.BlockLoop(C(), S()) == P.BlockLoop(C(), old(S()))
      decreases C().Left(pos), 9
    {
      hide P.GenExpr, P.GenPrec, P.PrecLoop, P.GenUnary, P.GenPrimary, P.GenCall, P.GenArgs, P.GenLoad,
           P.GenStore, P.GenVar, P.ParseStmt, P.ParseIf, P.ParseWhile, P.ParseBlock, P.ParseDecl, P.ParseCond, Plain,
           Const, ReadVar, WriteVar, BinCode, UnaryCode, P.Emit, Lookup, P.Expect, P.Fault;
      var decl := Accept(KwInt);
      if decl {
        ParseDeclaration();
      } else {
        ParseStatement();
      }
    }

    method AddLocal(x: string) returns (slot: nat)
      modifies this`errors, this`locals
      ensures S() == P.AddLocal(old(S()), x) && slot == SlotOf(old(locals), x)
    {
      if IndexOf(locals, x).Some? || |locals| >= MaxLocals {
        Fault();
        return 0;
      }
      slot := |locals|;
      locals := locals + [x];
    }

    method ExpectName() returns (x: string)
      modifies this`pos, this`errors
      ensures S() == P.ExpectName(C(), old(S())) && x == P.NameOf(C().Peek(old(pos)))
    {
      var t := Peek();
      if t.Ident? {
        Next();
        return t.text;
      }
      Fault();
      return "";
    }

    method ParseDeclaration()
      modifies this`pos, this`ops, this`errors, this`locals
      ensures S() == P.ParseDecl(C(), old(S()))
      decreases C().Left(pos), 12
    {
      hide P.AddLocal, P.ExpectName, P.NameOf, P.Expect, SlotOf;
      hide P.GenExpr, P.GenPrec, P.PrecLoop, P.GenUnary, P.GenPrimary, P.GenCall, P.GenArgs, P.GenLoad,
           P.GenStore, P.GenVar, P.ParseStmt, P.ParseIf, P.ParseWhile, P.ParseBlock, P.BlockLoop, P.ParseCond,
           Plain, Const, ReadVar, WriteVar, BinCode, UnaryCode, P.Emit, Lookup;
      var x := ExpectName();
      var slot := AddLocal(x);
      var init := Accept(AssignT);
      if init {
        GenExpr();
        Emit(Plain(WriteVar(Slot(slot))));
      }
      Expect(Semi);
    }

    // ----- functions and globals -----

    method ParseParameter(count: nat) returns (more: nat)
      modifies this`pos, this`errors, this`locals
      ensures (S(), more) == Q.ParseParam(C(), old(S()), count)
    {
      hide CanAdd;
      Expect(KwInt);
      var x := ExpectName();
      if count >= MaxArgs {
        Fault();
        more := count;
      } else {
        var slot := AddLocal(x);
        more := count + 1;
      }
    }

    method ParseParameters() returns (count: nat)
      modifies this`pos, this`errors, this`locals
      ensures (S(), count) == Q.ParseParams(C(), old(S()), 0)
    {
      hide Q.ParseParam;
      ghost var c, s0 := C(), S();
      count := 0;
      var more := true;
      while more
        invariant C() == c
        invariant more ==> Q.ParseParams(c, s0, 0) == Q.ParseParams(c, S(), count)
        invariant !more ==> Q.ParseParams(c, s0, 0) == (S(), count)
        decreases more, c.Left(pos)
      {
        count := ParseParameter(count);
        more := Accept(Comma);
      }
    }

    method ParseHead() returns (count: nat)
      modifies this`pos, this`errors, this`locals
      ensures (S(), count) == Q.ParseHead(C(), old(S()))
    {
      hide Q.ParseParams;
      Expect(LParen);
      count := 0;
      var none := Accept(RParen);
      if !none {
        count := ParseParameters();
        Expect(RParen);
      }
    }

    method ParseRest() returns (count: nat)
      modifies this`pos, this`ops, this`errors, this`locals, this`labels
      ensures (S(), count) == Q.ParseRest(C(), old(S()))
    {
      hide Q.ParseHead, P.ParseBlock, P.Emit;
      count := ParseHead();
      ParseBlock();
      Emit([Mark(End(fn))]);
      Emit([Ret]);
    }

    /** `int` and the name, with a fresh function. */
    method BeginFunction()
      modifies this`pos, this`ops, this`errors, this`locals, this`fn
      ensures fn == Q.FunName(toks, old(pos))
      ensures var c := P.Ctx(toks, globals, fn);
              S() == P.ExpectName(c, P.Expect(c, P.St(old(pos), [], old(errors), [], labels), KwInt))
    {
      hide Q.FunName, P.Expect, P.NameOf, P.ExpectName;
      ops, locals := [], [];
      NameAfterInt(C(), P.Ctx(toks, globals, Q.FunName(toks, pos)), S());
      Expect(KwInt);
      fn := P.NameOf(Peek());
      var x := ExpectName();
    }

    method ParseFunction()
      modifies this
      ensures Result() == Q.ParseFun(toks, old(Result()))
    {
      hide Q.ParseRest, Q.FunName, P.Expect, P.NameOf, P.ExpectName;
      BeginFunction();
      var count := ParseRest();
      units := units + [Unit(fn, count, |locals|, ops)];
    }

    method SkipToSemi()
      modifies this`pos
      ensures S() == Q.SkipToSemi(C(), old(S()))
    {
      ghost var c, s0 := C(), S();
      while Peek() != Semi && Peek() != Eof
        invariant pos >= s0.pos && Q.SkipToSemi(c, s0) == Q.SkipToSemi(c, S())
        decreases c.Left(pos)
      {
        Next();
      }
    }

    method AddGlobal(x: string, addr: Word)
      modifies this`errors, this`globals
      ensures globals == Q.AddGlobal(old(globals), x, addr)
      ensures S() == P.Fault(old(S()), OneIf(!Q.CanAddGlobal(old(globals), x)))
    {
      if x in globals || |globals| >= Q.MaxGlobals {
        Fault();
      } else {
        globals := globals[x := addr];
      }
    }

    method ExpectNumber() returns (v: Word)
      modifies this`pos, this`errors
      ensures var t := C().Peek(old(pos));
              && v == (if t.Number? then t.v else 0)
              && S() == if t.Number? then P.Skip(old(S())) else P.Fault(old(S()), 1)
    {
      var t := Peek();
      if t.Number? {
        Next();
        return t.v;
      }
      Fault();
      return 0;
    }

    method ParseInit()
      modifies this`pos, this`errors
      ensures S() == Q.ParseInit(C(), old(S()))
    {
      hide Q.SkipToSemi;
      var init := Accept(AssignT);
      if init {
        Fault();
        SkipToSemi();
      }
      Expect(Semi);
    }

    method ParseAddress() returns (addr: Word)
      modifies this`pos, this`errors
      ensures (S(), addr) == Q.ParseAddress(C(), old(S()))
    {
      Expect(LParen);
      addr := ExpectNumber();
      Expect(RParen);
      Expect(KwInt);
    }

    /** There is no current function outside functions. */
    method ParseGlobal()
      requires Peek() == KwAt
      modifies this
      ensures Result() == Q.ParseGlobal(toks, old(Result()))
    {
      hide Q.ParseAddress, Q.ParseInit, Q.AddGlobal, Q.CanAddGlobal, P.NameOf, P.ExpectName, P.Fault;
      ops, locals, fn := [], [], "";
      Next();
      var addr := ParseAddress();
      DefineGlobal(addr);
      ParseInit();
    }

    method DefineGlobal(addr: Word)
      modifies this`pos, this`errors, this`globals
      ensures var x := P.NameOf(old(C()).Peek(old(pos)));
              && globals == Q.AddGlobal(old(globals), x, addr)
              && S() == P.Fault(P.ExpectName(old(C()), old(S())), OneIf(!Q.CanAddGlobal(old(globals), x)))
    {
      hide Q.AddGlobal, Q.CanAddGlobal, P.NameOf, P.ExpectName, P.Fault;
      var x := ExpectName();
      AddGlobal(x, addr);
    }

    method ParseProgram()
      modifies this
      ensures Result() == Q.ParseAll(toks, old(Result()))
    {
      ghost var p0 := Result();
      while Peek() != Eof
        invariant Q.ParseAll(toks, Result()) == Q.ParseAll(toks, p0)
        decreases |toks| - pos
      {
        if Peek() == KwAt {
          ParseGlobal();
        } else {
          ParseFunction();
        }
      }
    }
  }

  lemma {:induction false} BlockEnds(c: P.Ctx, s: P.St)
    requires c.Peek(s.pos) == RBrace || c.Peek(s.pos) == Eof
    ensures P.BlockLoop(c, s) == s
  {
  }

  lemma PopsStep(ops: seq<Op>, i: nat)
    requires 0 < i <= MaxArgs
    ensures ops + Plain(Pops(i)) == ops + Plain(Pop(i)) + Plain(Pops(i - 1))
  {
    hide Plain, Pop;
    PlainAppend(Pop(i), Pops(i - 1));
    assert ops + (Plain(Pop(i)) + Plain(Pops(i - 1))) == ops + Plain(Pop(i)) + Plain(Pops(i - 1));
  }

  lemma PopsNone(ops: seq<Op>)
    ensures ops + Plain(Pops(0)) == ops
  {
  }

  /** The name of a function is looked for after its `int`, whether that is there or not, and so whatever the
      function's name is. */
  lemma NameAfterInt(b: P.Ctx, c: P.Ctx, s: P.St)
    requires b.toks == c.toks
    ensures var t := P.Expect(b, s, KwInt);
            && Q.FunName(b.toks, s.pos) == P.NameOf(b.Peek(t.pos)) && b.Peek(t.pos) == c.Peek(t.pos)
            && P.Expect(c, s, KwInt) == t && P.ExpectName(c, t) == P.ExpectName(b, t)
  {
  }
}
