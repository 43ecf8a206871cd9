/** The tiny C language accepted by the BackSlash 9 compiler, with a fuelled interpreter.
    All values are 16-bit words. The interpreter also accounts for the stack words that a
    compiled run needs and for the addresses it touches, so that a run that would overflow the stack,
    or access the stack area or the code by address, is not a successful run. */
module Bs9Source {
  import opened Options
  import opened Words

  datatype BinOp = BitOr | BitXor | BitAnd | EqOp | NeOp | LtOp | LeOp | GtOp | GeOp | Plus | Minus

  /** Expressions over variables of type V: names in the source text, places once resolved. */
  datatype Expr<V> =
    | Num(v: Word)
    | Var(x: V)
    | Load(a: Expr<V>)
    | Store(a: Expr<V>, e: Expr<V>)
    | CallFn(f: string, args: Exprs<V>)
    | Pos(e: Expr<V>)
    | Paren(e: Expr<V>)
    | Neg(e: Expr<V>)
    | Compl(e: Expr<V>)
    | Not(e: Expr<V>)
    | Bin(op: BinOp, l: Expr<V>, r: Expr<V>)
    | Assign(x: V, e: Expr<V>)

  datatype Exprs<V> = NoArgs | Arg(head: Expr<V>, tail: Exprs<V>)

  datatype Stmt<V> =
    | Return(e: Expr<V>)
    | If(c: Expr<V>, thn: Stmt<V>)
    | IfElse(c: Expr<V>, thn: Stmt<V>, els: Stmt<V>)
    | While(c: Expr<V>, body: Stmt<V>)
    | Block(ss: Stmts<V>)
    | Do(e: Expr<V>)
    | Empty
    | Decl(x: V)
    | DeclInit(x: V, e: Expr<V>)

  datatype Stmts<V> = Nil | Cons(hd: Stmt<V>, tl: Stmts<V>)

  /** Where a variable lives: a slot of the frame or a fixed address. */
  datatype Place = Slot(i: nat) | Abs(a: Word)

  datatype Function = Function(name: string, params: nat, locals: nat, body: Stmts<Place>)

  /** What a call delivers: what the language promises, or what the emitted code does. In the emitted code
      a `return` replaces the value in R0 by the address of the epilogue it jumps to, and parameter i
      is spilled as the constant i + 1. */
  datatype Mode = Promised | Emitted(ends: map<string, Word>)

  datatype Cfg = Cfg(funcs: seq<Function>, codeLen: nat, lo: nat, top: nat, mode: Mode) {
    /** Addresses a program may use: neither code nor stack. */
    predicate Data(a: Word) { codeLen <= a && !(lo <= a < top) }

    function Find(name: string): Option<Function> { FindIn(funcs, name) }

    function ParamValues(f: Function, vals: seq<Word>): Option<seq<Word>> {
      if mode.Emitted? then Some(Spilled(f.params))
      else if |vals| == f.params then Some(vals)
      else None
    }

    function ReturnValue(name: string, v: Option<Word>): Option<Word> {
      if mode.Promised? then v
      else if name in mode.ends then Some(mode.ends[name]) else None
    }
  }

  /** What the emitted prologue leaves in the parameter slots. */
  function Spilled(params: nat): seq<Word> { seq(params, i => (i + 1) % 0x10000) }

  function FindIn(funcs: seq<Function>, name: string): Option<Function> {
    if funcs == [] then None
    else if funcs[0].name == name then Some(funcs[0])
    else FindIn(funcs[1..], name)
  }

  datatype Env = Env(locals: map<nat, Word>, mem: Memory)

  function Frame(vals: seq<Word>): map<nat, Word> {
    map i: nat | 0 <= i < |vals| :: vals[i]
  }

  datatype Error = Timeout | StackOverflow | BadAddress | Uninitialised | NoValue | NoFunction | BadArity

  datatype Value = Val(v: Option<Word>, env: Env) | Bad(error: Error)
  datatype Values = Vals(vs: seq<Word>, env: Env) | BadArgs(error: Error)
  datatype Flow = Normal(env: Env) | Returned(v: Option<Word>, env: Env) | Stuck(error: Error)
  datatype Done = Done(v: Option<Word>, mem: Memory) | Failed(error: Error)

  function Truth(b: bool): Word { if b then 1 else 0 }

  function Apply(op: BinOp, x: Word, y: Word): Word {
    match op
    case BitOr => Bits(OrF, x, y)
    case BitXor => Bits(XorF, x, y)
    case BitAnd => Bits(AndF, x, y)
    case Plus => Add(x, y)
    case Minus => Sub(x, y)
    case EqOp => Truth(Sub(x, y) == 0)
    case NeOp => Truth(Sub(x, y) != 0)
    case LtOp => Truth(Negative(Sub(x, y)))
    case GeOp => Truth(!Negative(Sub(x, y)))
    case LeOp => Truth(Negative(Sub(x, y)) || Sub(x, y) == 0)
    case GtOp => Truth(!Negative(Sub(x, y)) && Sub(x, y) != 0)
  }

  /** The comparisons are exact on unsigned equality, and on signed order when the difference fits. */
  lemma ComparisonsAreExact(x: Word, y: Word)
    ensures Apply(EqOp, x, y) == Truth(x == y) && Apply(NeOp, x, y) == Truth(x != y)
    ensures Apply(LtOp, x, y) == Truth(Signed(x) < Signed(y)) <==>
            -0x8000 <= Signed(x) - Signed(y) < 0x8000
    ensures Apply(GeOp, x, y) == Truth(Signed(x) >= Signed(y)) <==>
            -0x8000 <= Signed(x) - Signed(y) < 0x8000
    ensures Apply(LeOp, x, y) == Truth(Signed(x) <= Signed(y)) <==>
            -0x8000 <= Signed(x) - Signed(y) < 0x8000
    ensures Apply(GtOp, x, y) == Truth(Signed(x) > Signed(y)) <==>
            -0x8000 <= Signed(x) - Signed(y) < 0x8000
  {
    var d := Signed(x) - Signed(y);
    assert Sub(x, y) == (if d < 0 then (if d < -0x10000 then d + 0x20000 else d + 0x10000) else d) by {
      assert (x - y - d) % 0x10000 == 0;
    }
  }

  /** The value of an operand: a call that ends without `return` has none. */
  function Use(r: Value): Value {
    if r.Val? && r.v.None? then Bad(NoValue) else r
  }

  function SetVar(c: Cfg, x: Place, r: Value): Value
    requires r.Val? ==> r.v.Some?
  {
    if r.Bad? then r else
    match x
    case Slot(i) => Val(r.v, r.env.(locals := r.env.locals[i := r.v.value]))
    case Abs(a) =>
      if c.Data(a) then Val(r.v, r.env.(mem := r.env.mem[a := r.v.value])) else Bad(BadAddress)
  }

  function Eval(c: Cfg, e: Expr<Place>, env: Env, room: nat, fuel: nat): (r: Value)
    decreases fuel, e
  {
    match e
    case Num(v) => Val(Some(v), env)
    case Var(Slot(i)) => if i in env.locals then Val(Some(env.locals[i]), env) else Bad(Uninitialised)
    case Var(Abs(a)) => if c.Data(a) then Val(Some(env.mem[a]), env) else Bad(BadAddress)
    case Load(e1) =>
      var r := Use(Eval(c, e1, env, room, fuel));
      if r.Bad? then r
      else if c.Data(r.v.value) then Val(Some(r.env.mem[r.v.value]), r.env) else Bad(BadAddress)
    case Store(e1, e2) =>
      var p := Use(Eval(c, e1, env, room, fuel));
      if p.Bad? then p else
      if room == 0 then Bad(StackOverflow) else
      var q := Use(Eval(c, e2, p.env, room - 1, fuel));
      if q.Bad? then q else
      if c.Data(p.v.value) then Val(q.v, q.env.(mem := q.env.mem[p.v.value := q.v.value]))
      else Bad(BadAddress)
    case CallFn(f, args) =>
      var p := EvalArgs(c, args, env, room, fuel);
      if p.BadArgs? then Bad(p.error) else
      if fuel == 0 then Bad(Timeout) else
      var d := Invoke(c, f, p.vs, p.env.mem, room, fuel - 1);
      if d.Failed? then Bad(d.error) else Val(d.v, p.env.(mem := d.mem))
    case Pos(e1) => Eval(c, e1, env, room, fuel)
    case Paren(e1) => Eval(c, e1, env, room, fuel)
    case Neg(e1) =>
      var r := Use(Eval(c, e1, env, room, fuel));
      if r.Bad? then r else Val(Some(Sub(0, r.v.value)), r.env)
    case Compl(e1) =>
      var r := Use(Eval(c, e1, env, room, fuel));
      if r.Bad? then r else Val(Some(0xFFFF - r.v.value), r.env)
    case Not(e1) =>
      var r := Use(Eval(c, e1, env, room, fuel));
      if r.Bad? then r else Val(Some(Truth(r.v.value == 0)), r.env)
    case Bin(op, e1, e2) =>
      var p := Use(Eval(c, e1, env, room, fuel));
      if p.Bad? then p else
      if room == 0 then Bad(StackOverflow) else
      var q := Use(Eval(c, e2, p.env, room - 1, fuel));
      if q.Bad? then q else Val(Some(Apply(op, p.v.value, q.v.value)), q.env)
    case Assign(x, e1) => SetVar(c, x, Use(Eval(c, e1, env, room, fuel)))
  }

  /** Arguments from left to right, each pushed on the stack before the next is evaluated. */
  function EvalArgs(c: Cfg, args: Exprs<Place>, env: Env, room: nat, fuel: nat): (r: Values)
    decreases fuel, args
  {
    match args
    case NoArgs => Vals([], env)
    case Arg(e, rest) =>
      var p := Use(Eval(c, e, env, room, fuel));
      if p.Bad? then BadArgs(p.error) else
      if room == 0 then BadArgs(StackOverflow) else
      var q := EvalArgs(c, rest, p.env, room - 1, fuel);
      if q.BadArgs? then q else Vals([p.v.value] + q.vs, q.env)
  }

  function Exec(c: Cfg, s: Stmt<Place>, env: Env, room: nat, fuel: nat): (r: Flow)
    decreases fuel, s
  {
    match s
    case Return(e) =>
      var r := Eval(c, e, env, room, fuel);
      if r.Bad? then Stuck(r.error) else Returned(r.v, r.env)
    case If(e, thn) =>
      var r := Use(Eval(c, e, env, room, fuel));
      if r.Bad? then Stuck(r.error)
      else if r.v.value != 0 then Exec(c, thn, r.env, room, fuel) else Normal(r.env)
    case IfElse(e, thn, els) =>
      var r := Use(Eval(c, e, env, room, fuel));
      if r.Bad? then Stuck(r.error)
      else if r.v.value != 0 then Exec(c, thn, r.env, room, fuel) else Exec(c, els, r.env, room, fuel)
    case While(e, body) =>
      var r := Use(Eval(c, e, env, room, fuel));
      if r.Bad? then Stuck(r.error) else
      if r.v.value == 0 then Normal(r.env) else
      var b := Exec(c, body, r.env, room, fuel);
      if !b.Normal? then b
      else if fuel == 0 then Stuck(Timeout)
      else Exec(c, s, b.env, room, fuel - 1)
    case Block(ss) => ExecAll(c, ss, env, room, fuel)
    case Do(e) =>
      var r := Eval(c, e, env, room, fuel);
      if r.Bad? then Stuck(r.error) else Normal(r.env)
    case Empty => Normal(env)
    case Decl(_) => Normal(env)
    case DeclInit(x, e) =>
      var r := SetVar(c, x, Use(Eval(c, e, env, room, fuel)));
      if r.Bad? then Stuck(r.error) else Normal(r.env)
  }

  function ExecAll(c: Cfg, ss: Stmts<Place>, env: Env, room: nat, fuel: nat): (r: Flow)
    decreases fuel, ss
  {
    match ss
    case Nil => Normal(env)
    case Cons(s, rest) =>
      var r := Exec(c, s, env, room, fuel);
      if r.Normal? then ExecAll(c, rest, r.env, room, fuel) else r
  }

  /** A call: two words for the saved frame pointer and return address, one for each local. */
  function Invoke(c: Cfg, name: string, vals: seq<Word>, mem: Memory, room: nat, fuel: nat): (r: Done)
    decreases fuel
  {
    var found := c.Find(name);
    if found.None? then Failed(NoFunction) else
    var f := found.value;
    if room < 2 + f.locals then Failed(StackOverflow) else
    var ps := c.ParamValues(f, vals);
    if ps.None? then Failed(BadArity) else
    var r := ExecAll(c, f.body, Env(Frame(ps.value), mem), room - 2 - f.locals, fuel);
    match r
    case Normal(env) => Done(None, env.mem)
    case Returned(v, env) => Done(c.ReturnValue(f.name, v), env.mem)
    case Stuck(e) => Failed(e)
  }

  /** A whole program: main with the whole stack area. */
  function RunMain(c: Cfg, mem: Memory, fuel: nat): Done
    requires c.lo <= c.top
  {
    Invoke(c, "main", [], mem, c.top - c.lo, fuel)
  }
}
