/** Whole programs: global declarations and functions, parsed, printed and resolved. */
module Bs9ParseProgram {
  import opened Words
  import opened Bs9Ops
  import opened Bs9Source
  import opened Bs9Gen
  import opened Bs9Lower
  import opened Bs9Layout
  import opened Bs9Token
  import opened Bs9Parse
  import opened Bs9ParseOk
  import opened Bs9ParseStmt

  // ----- the parser -----

  datatype Ps = Ps(pos: nat, errors: nat, labels: nat, globals: map<string, Word>, units: seq<Unit>)

  /** Parameters beyond the fourth are errors; a parameter counts even if its name is taken. */
  function ParseParam(c: Ctx, s: St, count: nat): (r: (St, nat))
    ensures r.0.pos >= s.pos && (count <= MaxArgs ==> r.1 <= MaxArgs)
  {
    var typed := Expect(c, s, KwInt);
    var x := NameOf(c.Peek(typed.pos));
    var named := ExpectName(c, typed);
    if count >= MaxArgs then (Fault(named, 1), count) else (AddLocal(named, x), count + 1)
  }

  function ParseParams(c: Ctx, s: St, count: nat): (r: (St, nat))
    ensures r.0.pos >= s.pos && (count <= MaxArgs ==> r.1 <= MaxArgs)
    decreases c.Left(s.pos)
  {
    var (added, n) := ParseParam(c, s, count);
    if c.Peek(added.pos) == Comma then ParseParams(c, Skip(added), n) else (added, n)
  }

  function ParseHead(c: Ctx, s: St): (r: (St, nat))
    ensures r.0.pos >= s.pos && r.1 <= MaxArgs
  {
    var open := Expect(c, s, LParen);
    if c.Peek(open.pos) == RParen then (Skip(open), 0)
    else
      var (ps, n) := ParseParams(c, open, 0);
      (Expect(c, ps, RParen), n)
  }

  function FunName(toks: seq<Token>, pos: nat): string {
    var c := Ctx(toks, map[], "");
    NameOf(c.Peek(if c.Peek(pos) == KwInt then pos + 1 else pos))
  }

  /** Parameter list, body, return label and epilogue. */
  function ParseRest(c: Ctx, s: St): (r: (St, nat))
    ensures c.Peek(s.pos) != Eof ==> r.0.pos > s.pos
    ensures r.0.pos >= s.pos && r.1 <= MaxArgs
  {
    var (head, n) := ParseHead(c, s);
    (Emit(Emit(ParseBlock(c, head), [Mark(End(c.fn))]), [Ret]), n)
  }

  function ParseFun(toks: seq<Token>, p: Ps): (r: Ps)
    ensures p.pos < |toks| && toks[p.pos] != Eof ==> r.pos > p.pos
    ensures r.pos >= p.pos
  {
    var name := FunName(toks, p.pos);
    var c := Ctx(toks, p.globals, name);
    var (body, n) := ParseRest(c, ExpectName(c, Expect(c, St(p.pos, [], p.errors, [], p.labels), KwInt)));
    Ps(body.pos, body.errors, body.labels, p.globals, p.units + [Unit(name, n, |body.locals|, body.ops)])
  }

  const MaxGlobals: nat := 256

  predicate CanAddGlobal(globals: map<string, Word>, x: string) { x !in globals && |globals| < MaxGlobals }

  function AddGlobal(globals: map<string, Word>, x: string, a: Word): map<string, Word> {
    if CanAddGlobal(globals, x) then globals[x := a] else globals
  }

  function SkipToSemi(c: Ctx, s: St): (r: St)
    ensures r.pos >= s.pos
    decreases c.Left(s.pos)
  {
    if c.Peek(s.pos) == Semi || c.Peek(s.pos) == Eof then s else SkipToSemi(c, Skip(s))
  }

  function ParseInit(c: Ctx, s: St): (r: St)
    ensures r.pos >= s.pos
  {
    Expect(c, if c.Peek(s.pos) == AssignT then SkipToSemi(c, Fault(Skip(s), 1)) else s, Semi)
  }

  /** `__at(` number `) int`, past the first token. */
  function ParseAddress(c: Ctx, s: St): (r: (St, Word))
    ensures r.0.pos >= s.pos
  {
    var open := Expect(c, s, LParen);
    var t := c.Peek(open.pos);
    var num := if t.Number? then Skip(open) else Fault(open, 1);
    (Expect(c, Expect(c, num, RParen), KwInt), if t.Number? then t.v else 0)
  }

  /** A fixed-address global; an initializer is an error and is skipped. */
  function ParseGlobal(toks: seq<Token>, p: Ps): (r: Ps)
    requires Ctx(toks, p.globals, "").Peek(p.pos) == KwAt
    ensures r.pos > p.pos
  {
    var c := Ctx(toks, p.globals, "");
    var (typed, addr) := ParseAddress(c, Skip(St(p.pos, [], p.errors, [], p.labels)));
    var x := NameOf(c.Peek(typed.pos));
    var added := Fault(ExpectName(c, typed), OneIf(!CanAddGlobal(p.globals, x)));
    var c' := Ctx(toks, AddGlobal(p.globals, x, addr), "");
    var end := ParseInit(c', added);
    Ps(end.pos, end.errors, p.labels, c'.globals, p.units)
  }

  function ParseAll(toks: seq<Token>, p: Ps): Ps
    decreases Ctx(toks, p.globals, "").Left(p.pos)
  {
    var t := Ctx(toks, p.globals, "").Peek(p.pos);
    if t == Eof then p
    else if t == KwAt then ParseAll(toks, ParseGlobal(toks, p))
    else ParseAll(toks, ParseFun(toks, p))
  }

  const Start0: Ps := Ps(0, 0, 0, map[], [])

  // ----- program trees -----

  datatype Top = GlobalVar(addr: Word, name: string) | Fun(name: string, params: seq<string>, body: Stmts<string>)

  function PrintParams(params: seq<string>): seq<Token> {
    if params == [] then []
    else if |params| == 1 then [KwInt] + [Ident(params[0])]
    else [KwInt] + ([Ident(params[0])] + ([Comma] + PrintParams(params[1..])))
  }

  function PrintBody(body: Stmts<string>): seq<Token> { [LBrace] + (PrintStmts(body) + [RBrace]) }

  function PrintTop(d: Top): seq<Token> {
    match d
    case GlobalVar(a, x) =>
      [KwAt] + ([LParen] + ([Number(a)] + ([RParen] + ([KwInt] + ([Ident(x)] + [Semi])))))
    case Fun(f, params, body) =>
      [KwInt] + ([Ident(f)] + ([LParen] + (PrintParams(params) + ([RParen] + PrintBody(body)))))
  }

  function PrintProgram(ds: seq<Top>): seq<Token> {
    if ds == [] then [] else PrintTop(ds[0]) + PrintProgram(ds[1..])
  }

  predicate PrintableTop(d: Top) { d.Fun? ==> PrintableStmts(d.body) }

  function TakeParam(x: string, locals: seq<string>, count: nat): (seq<string>, nat, nat) {
    if count >= MaxArgs then (locals, count, 1)
    else (AddName(locals, x), count + 1, OneIf(!CanAdd(locals, x)))
  }

  /** Locals, number and errors of a parameter list. */
  function TakeParams(params: seq<string>, locals: seq<string>, count: nat): (seq<string>, nat, nat) {
    if params == [] then (locals, count, 0)
    else
      var (ls, n, f) := TakeParam(params[0], locals, count);
      var (ls', n', f') := TakeParams(params[1..], ls, n);
      (ls', n', f + f')
  }

  function FunctionOf(d: Top, globals: map<string, Word>): Function
    requires d.Fun?
  {
    var (ls, n, _) := TakeParams(d.params, [], 0);
    Function(d.name, n, |LocalsAll(d.body, ls)|, ResolveStmts(d.body, Scope(ls, globals)))
  }

  function FaultsTop(d: Top, globals: map<string, Word>): nat {
    match d
    case GlobalVar(_, x) => OneIf(!CanAddGlobal(globals, x))
    case Fun(_, params, body) =>
      var (ls, _, f) := TakeParams(params, [], 0);
      f + FaultsStmts(body, Scope(ls, globals))
  }

  function GlobalsAfter(d: Top, globals: map<string, Word>): map<string, Word> {
    if d.GlobalVar? then AddGlobal(globals, d.name, d.addr) else globals
  }

  /** The functions of a program; each sees the globals declared before it. */
  function FuncsOf(ds: seq<Top>, globals: map<string, Word>): seq<Function> {
    if ds == [] then []
    else (if ds[0].Fun? then [FunctionOf(ds[0], globals)] else []) + FuncsOf(ds[1..], GlobalsAfter(ds[0], globals))
  }

  function FaultsAll(ds: seq<Top>, globals: map<string, Word>): nat {
    if ds == [] then 0 else FaultsTop(ds[0], globals) + FaultsAll(ds[1..], GlobalsAfter(ds[0], globals))
  }

  // ----- parsing a printed program -----

  lemma ParamOk(c: Ctx, s: St, x: string, count: nat)
    requires c.Peek(s.pos) == KwInt && c.Peek(s.pos + 1) == Ident(x)
    ensures var (ls, n, f) := TakeParam(x, s.locals, count);
            ParseParam(c, s, count) == (St(s.pos + 2, s.ops, s.errors + f, ls, s.labels), n)
  {
    hide CanAdd;
  }

  /** The first parameter, printed, taken and parsed. */
  lemma {:induction false} OneParam(c: Ctx, s: St, params: seq<string>, count: nat)
    requires params != []
    ensures var (ls, n, f) := TakeParam(params[0], s.locals, count);
            var (ls', n', f') := TakeParams(params[1..], ls, n);
            && TakeParams(params, s.locals, count) == (ls', n', f + f')
            && (|params| == 1 ==> ls' == ls && n' == n && f' == 0)
    ensures var (added, n) := ParseParam(c, s, count);
            ParseParams(c, s, count) ==
              if c.Peek(added.pos) == Comma then ParseParams(c, Skip(added), n) else (added, n)
  {
    hide TokAt, TakeParam, ParseParam;
  }

  lemma {:induction false} ParamsOk(c: Ctx, s: St, params: seq<string>, count: nat)
    requires params != [] && TokAt(c, s.pos, PrintParams(params)) && c.Peek(s.pos + |PrintParams(params)|) == RParen
    ensures var (ls, n, f) := TakeParams(params, s.locals, count);
            ParseParams(c, s, count) ==
              (St(s.pos + |PrintParams(params)|, s.ops, s.errors + f, ls, s.labels), n)
    decreases |params|
  {
    hide TokAt, TakeParams, TakeParam, ParseParam, ParseParams, PrintParams;
    ParamPieces(c, s.pos, params);
    OneParam(c, s, params, count);
    ParamOk(c, s, params[0], count);
    if |params| > 1 {
      var (added, n) := ParseParam(c, s, count);
      ParamsOk(c, Skip(added), params[1..], n);
    }
  }

  lemma {:induction false} ParamPieces(c: Ctx, pos: nat, params: seq<string>)
    requires params != [] && TokAt(c, pos, PrintParams(params))
    ensures c.Peek(pos) == KwInt && c.Peek(pos + 1) == Ident(params[0])
    ensures |params| == 1 ==> |PrintParams(params)| == 2
    ensures |params| > 1 ==>
              && |PrintParams(params)| == 3 + |PrintParams(params[1..])|
              && c.Peek(pos + 2) == Comma && TokAt(c, pos + 3, PrintParams(params[1..]))
  {
    hide TokAt;
    var x, rest := params[0], params[1..];
    if |params| == 1 {
      TokHead(c, pos, KwInt, [Ident(x)]);
      TokOne(c, pos + 1, Ident(x));
    } else {
      TokHead(c, pos, KwInt, [Ident(x)] + ([Comma] + PrintParams(rest)));
      TokHead(c, pos + 1, Ident(x), [Comma] + PrintParams(rest));
      TokHead(c, pos + 2, Comma, PrintParams(rest));
    }
  }

  lemma {:induction false} HeadOk(c: Ctx, s: St, params: seq<string>)
    requires s.locals == [] && TokAt(c, s.pos, [LParen] + (PrintParams(params) + [RParen]))
    ensures var (ls, n, f) := TakeParams(params, [], 0);
            ParseHead(c, s) == (St(s.pos + |PrintParams(params)| + 2, s.ops, s.errors + f, ls, s.labels), n)
  {
    hide TokAt, ParseParams, TakeParams;
    var ts := PrintParams(params);
    TokHead(c, s.pos, LParen, ts + [RParen]);
    TokSplit(c, s.pos + 1, ts, [RParen]);
    TokOne(c, s.pos + 1 + |ts|, RParen);
    if params == [] {
      NoParams();
    } else {
      ParamsStart(c, s.pos + 1, params);
      ParamsOk(c, Skip(s), params, 0);
    }
  }

  lemma NoParams()
    ensures TakeParams([], [], 0) == ([], 0, 0) && PrintParams([]) == []
  {
  }

  lemma {:induction false} ParamsStart(c: Ctx, pos: nat, params: seq<string>)
    requires params != [] && TokAt(c, pos, PrintParams(params))
    ensures c.Peek(pos) == KwInt
  {
    hide TokAt;
    var ts := PrintParams(params);
    assert ts == [KwInt] + ts[1..];
    TokHead(c, pos, KwInt, ts[1..]);
  }

  lemma {:induction false} BodyOk(c: Ctx, s: St, body: Stmts<string>)
    requires PrintableStmts(body) && TokAt(c, s.pos, PrintBody(body))
    ensures ParseBlock(c, s) == AfterStmts(c, s, body, |PrintBody(body)|)
  {
    hide TokAt, ParseBlock, PrintStmts, BlockLoop, ParseStmt, CompStmts, ResolveStmts, FaultsStmts, LocalsAll;
    BlockTokens(c, s, PrintStmts(body));
    StmtsOk(c, Skip(s), body);
  }

  lemma FunPrint(d: Top)
    requires d.Fun?
    ensures PrintTop(d) == [KwInt] + ([Ident(d.name)] + ([LParen] + (PrintParams(d.params) + ([RParen] + PrintBody(d.body)))))
  {
    hide PrintParams, PrintBody;
  }

  lemma FunTokens(toks: seq<Token>, c: Ctx, pos: nat, d: Top)
    requires d.Fun? && c.toks == toks && TokAt(c, pos, PrintTop(d))
    ensures c.Peek(pos) == KwInt && c.Peek(pos + 1) == Ident(d.name) && FunName(toks, pos) == d.name
    ensures TokAt(c, pos + 2, [LParen] + (PrintParams(d.params) + [RParen]))
    ensures TokAt(c, pos + 4 + |PrintParams(d.params)|, PrintBody(d.body))
    ensures |PrintTop(d)| == 4 + |PrintParams(d.params)| + |PrintBody(d.body)|
  {
    hide TokAt, PrintParams, PrintBody, PrintTop;
    FunPrint(d);
    var ps, body := PrintParams(d.params), PrintBody(d.body);
    TokHead(c, pos, KwInt, [Ident(d.name)] + ([LParen] + (ps + ([RParen] + body))));
    TokHead(c, pos + 1, Ident(d.name), [LParen] + (ps + ([RParen] + body)));
    assert [LParen] + (ps + ([RParen] + body)) == [LParen] + (ps + [RParen]) + body;
    TokSplit(c, pos + 2, [LParen] + (ps + [RParen]), body);
  }

  /** The parsed unit is the unit of the resolved function. */
  lemma FunOk(toks: seq<Token>, p: Ps, d: Top)
    requires d.Fun? && PrintableTop(d) && TokAt(Ctx(toks, p.globals, d.name), p.pos, PrintTop(d))
    ensures ParseFun(toks, p) ==
            var f := FunctionOf(d, p.globals);
            Ps(p.pos + |PrintTop(d)|, p.errors + FaultsTop(d, p.globals), p.labels + LabelCounts(f.body), p.globals,
               p.units + [UnitOf(f, p.labels)])
  {
    hide TokAt, PrintTop, PrintBody, PrintParams, TakeParams, ParseHead, ParseBlock, FunName, CompStmts, ResolveStmts,
         FaultsStmts, LocalsAll;
    var c := Ctx(toks, p.globals, d.name);
    FunTokens(toks, c, p.pos, d);
    var s0 := St(p.pos + 2, [], p.errors, [], p.labels);
    HeadOk(c, s0, d.params);
    var (head, n) := ParseHead(c, s0);
    BodyOk(c, head, d.body);
    SameLabelsAll(d.body, Scope(head.locals, p.globals));
    var f := FunctionOf(d, p.globals);
    var code := CompStmts(f.body, d.name, p.labels);
    assert [] + code + [Mark(End(d.name))] + [Ret] == code + [Mark(End(d.name)), Ret];
  }

  lemma GlobalOk(toks: seq<Token>, p: Ps, d: Top)
    requires d.GlobalVar? && TokAt(Ctx(toks, p.globals, ""), p.pos, PrintTop(d))
    ensures Ctx(toks, p.globals, "").Peek(p.pos) == KwAt
    ensures ParseGlobal(toks, p) ==
            Ps(p.pos + |PrintTop(d)|, p.errors + FaultsTop(d, p.globals), p.labels, GlobalsAfter(d, p.globals), p.units)
  {
    hide TokAt, AddGlobal, CanAddGlobal;
    var c := Ctx(toks, p.globals, "");
    var a, x := d.addr, d.name;
    TokHead(c, p.pos, KwAt, [LParen] + ([Number(a)] + ([RParen] + ([KwInt] + ([Ident(x)] + [Semi])))));
    TokHead(c, p.pos + 1, LParen, [Number(a)] + ([RParen] + ([KwInt] + ([Ident(x)] + [Semi]))));
    TokHead(c, p.pos + 2, Number(a), [RParen] + ([KwInt] + ([Ident(x)] + [Semi])));
    TokHead(c, p.pos + 3, RParen, [KwInt] + ([Ident(x)] + [Semi]));
    TokHead(c, p.pos + 4, KwInt, [Ident(x)] + [Semi]);
    TokHead(c, p.pos + 5, Ident(x), [Semi]);
    TokOne(c, p.pos + 6, Semi);
  }

  lemma {:induction false} UnitsMore(done: seq<Function>, f: Function)
    ensures UnitsOf(done + [f]) == UnitsOf(done) + [UnitOf(f, Labels(done))]
    ensures Labels(done + [f]) == Labels(done) + LabelCounts(f.body)
  {
    hide UnitOf, LabelCounts;
    assert (done + [f])[..|done|] == done;
    forall k | 0 <= k < |done|
      ensures (done + [f])[..k] == done[..k]
    {
    }
  }

  /** Parsing a printed program: every token is consumed, the errors are those of the tree, and the units are
      those of its resolved functions, with labels numbered through. */
  lemma {:induction false} ProgramOk(toks: seq<Token>, p: Ps, ds: seq<Top>, done: seq<Function>)
    requires (forall d :: d in ds ==> PrintableTop(d)) && p.pos <= |toks| && toks[p.pos..] == PrintProgram(ds)
    requires p.units == UnitsOf(done) && p.labels == Labels(done)
    ensures var r := ParseAll(toks, p);
            && r.pos == |toks| && r.errors == p.errors + FaultsAll(ds, p.globals)
            && r.units == UnitsOf(done + FuncsOf(ds, p.globals))
    decreases |ds|
  {
    hide TokAt, PrintTop, ParseFun, ParseGlobal, FunctionOf, FaultsTop, UnitsOf, Labels, PrintableTop, GlobalsAfter, UnitOf,
      FaultsAll, FuncsOf;
    ProgramTree(ds, p.globals, done);
    if ds != [] {
      var d, rest := ds[0], ds[1..];
      var c := Ctx(toks, p.globals, if d.Fun? then d.name else "");
      TopHere(c, p.pos, d, rest);
      assert d in ds;
      if d.Fun? {
        FunTokens(toks, c, p.pos, d);
        FunOk(toks, p, d);
        var f := FunctionOf(d, p.globals);
        UnitsMore(done, f);
        GlobalsSame(d, p.globals);
        ProgramOk(toks, ParseFun(toks, p), rest, done + [f]);
      } else {
        GlobalOk(toks, p, d);
        ProgramOk(toks, ParseGlobal(toks, p), rest, done);
      }
    }
  }

  /** The first declaration and the others. */
  lemma {:induction false} ProgramTree(ds: seq<Top>, globals: map<string, Word>, done: seq<Function>)
    ensures ds == [] ==> FaultsAll(ds, globals) == 0 && done + FuncsOf(ds, globals) == done
    ensures ds != [] ==>
              var after := GlobalsAfter(ds[0], globals);
              var done' := if ds[0].Fun? then done + [FunctionOf(ds[0], globals)] else done;
              && FaultsAll(ds, globals) == FaultsTop(ds[0], globals) + FaultsAll(ds[1..], after)
              && done + FuncsOf(ds, globals) == done' + FuncsOf(ds[1..], after)
  {
    hide FaultsTop, FunctionOf, GlobalsAfter;
  }

  lemma GlobalsSame(d: Top, globals: map<string, Word>)
    requires d.Fun?
    ensures GlobalsAfter(d, globals) == globals
  {
  }

  lemma {:induction false} TopHere(c: Ctx, pos: nat, d: Top, rest: seq<Top>)
    requires pos <= |c.toks| && c.toks[pos..] == PrintProgram([d] + rest)
    ensures TokAt(c, pos, PrintTop(d)) && pos + |PrintTop(d)| <= |c.toks|
    ensures c.toks[pos + |PrintTop(d)|..] == PrintProgram(rest)
  {
    hide PrintTop;
    assert ([d] + rest)[1..] == rest;
    var ts := PrintTop(d);
    assert c.toks[pos..] == ts + PrintProgram(rest);
    assert c.toks[pos..pos + |ts|] == c.toks[pos..][..|ts|];
    assert c.toks[pos + |ts|..] == c.toks[pos..][|ts|..];
  }
}
