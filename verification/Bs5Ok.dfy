/** Microprograms do what they are meant to do. */
module Bs5Ok {
  import opened Words
  import opened Bs5Isa
  import opened Bs5Micro

  // ----- short blocks -----

  /** The flags after a line with one core instruction, for each marking: additions, subtractions, shifts and logic set
      them unless marked nf, moves and jumps only if marked fl. */
  lemma LineFlags(f: Mark, i: Core, s: State)
    ensures var u, t := Next(s), Do(Marked(f, i), s);
            var g := s.flags;
            t.flags ==
              match i
              case MovMR(_, y) => if f.Fl? then MovFlags(g, u.R(y)) else g
              case MovRM(_, y) => if f.Fl? then MovFlags(g, u.mem[u.R(y)]) else g
              case MovRR(_, y) => if f.Fl? then MovFlags(g, u.R(y)) else g
              case AddPc(off) => if f.Fl? then AddFlags(g, u.pc, off % 0x10000) else g
              case AddRM(x, y) => if f.Nf? then g else AddFlags(g, u.R(x), u.mem[u.R(y)])
              case SubRM(x, y) => if f.Nf? then g else SubFlags(g, u.R(x), u.mem[u.R(y)])
              case AddRR(x, y) => if f.Nf? then g else AddFlags(g, u.R(x), u.R(y))
              case SubRR(x, y) => if f.Nf? then g else SubFlags(g, u.R(x), u.R(y))
              case Inc(x) => if f.Nf? then g else AddFlags(g, u.R(x), 1)
              case Dec(x) => if f.Nf? then g else SubFlags(g, u.R(x), 1)
              case FlagToX(b) => g.(x := g.Bit(b))
              case OnR0(op) =>
                if (if MovesByte(op) then f.Fl? else !f.Nf?) then ResultFlags(op, u.R(0), u) else g
  {
    hide MovFlags, AddFlags, SubFlags, Result, ResultFlags, Add, Sub;
  }

  /** A state some instructions further on. */
  function Later(s: State, n: nat): State
    requires Room(s, n)
  {
    s.(pc := s.pc + n)
  }

  /** The next n addresses do not wrap. */
  predicate Room(s: State, n: nat) { s.pc + n < 0x10000 }

  lemma DownUp(a: Word)
    ensures Add(Sub(a, 1), 1) == a && Sub(Add(a, 1), 1) == a
  {
    assert Sub(a, 1) == if a == 0 then 0xFFFF else a - 1;
    assert Add(a, 1) == if a == 0xFFFF then 0 else a + 1;
  }

  /** Moving the stack pointer and back. */
  lemma SpBack(s: State, a: Word)
    ensures s.Set(SP, a).Set(SP, s.R(SP)) == s
  {
    assert s.regs[13 := a][13 := s.regs[13]] == s.regs;
  }

  lemma Halves(v: Word)
    ensures Bytes(High(v), Low(v)) == v && forall w: Word :: High(Bytes(High(w), Low(v))) == High(w)
  {
  }

  // ----- single instructions -----

  lemma DoMov(x: Reg, y: Reg, s: State)
    requires Room(s, 1)
    requires y != PC
    ensures Do(Quiet(MovRR(x, y)), s) == Later(s, 1).Set(x, s.R(y))
  {
  }

  lemma DoAdd(x: Reg, y: Reg, s: State)
    requires Room(s, 1)
    requires x != PC && y != PC
    ensures Do(Quiet(AddRR(x, y)), s) == Later(s, 1).Set(x, Add(s.R(x), s.R(y)))
  {
  }

  lemma DoLoad(x: Reg, y: Reg, s: State)
    requires Room(s, 1)
    requires y != PC
    ensures Do(Quiet(MovRM(x, y)), s) == Later(s, 1).Set(x, s.mem[s.R(y)])
  {
  }

  lemma DoStore(x: Reg, y: Reg, s: State)
    requires Room(s, 1)
    requires x != PC && y != PC
    ensures Do(Quiet(MovMR(x, y)), s) == Later(s, 1).Store(s.R(x), s.R(y))
  {
  }

  lemma DoInc(s: State)
    requires Room(s, 1)
    ensures Do(Quiet(Inc(SP)), s) == Later(s, 1).Set(SP, Above(s))
  {
  }

  lemma DoDec(s: State)
    requires Room(s, 1)
    ensures Do(Quiet(Dec(SP)), s) == Later(s, 1).Set(SP, Below(s))
  {
  }

  lemma DoOnR0(op: R0Op, s: State)
    requires Room(s, 1)
    requires op.MovLow? || op.MovHigh? || op.AddImm?
    ensures Do(Quiet(OnR0(op)), s) == Later(s, 1).Set(0, Result(op, s.R(0), s))
  {
  }

  lemma DoMarked(f: Mark, i: Core, s: State)
    requires Room(s, 1)
    ensures Do(Marked(f, i), s) == Effect(i, Sets(f, i), Later(s, 1))
  {
    hide Effect, Sets;
  }

  // ----- common sequences -----

  lemma {:induction false} LoadR0Ok(v: Word, s: State)
    requires Room(s, 2)
    ensures DoAll(LoadR0(v), s) == Later(s, 2).Set(0, v)
  {
    hide Fold, Do, Add, Sub, Bytes;
    var lo, hi := MovLow(Low(v)), MovHigh(High(v));
    FoldTwo(Do, Quiet(OnR0(lo)), Quiet(OnR0(hi)), s);
    DoOnR0(lo, s);
    DoOnR0(hi, Later(s, 1).Set(0, Bytes(High(s.R(0)), Low(v))));
    LowOf(High(s.R(0)), Low(v));
    Halves(v);
  }

  lemma LowOf(h: Byte, l: Byte)
    ensures Low(Bytes(h, l)) == l
  {
  }

  lemma {:induction false} AddressOk(b: Base, idx: Index, regFirst: bool, s: State)
    requires Room(s, 3)
    ensures |AddressR0(b, idx, regFirst)| == if idx.I16? then 3 else 2
    ensures DoAll(AddressR0(b, idx, regFirst), s) ==
            Later(s, |AddressR0(b, idx, regFirst)|).Set(0, Address(b, idx, s))
  {
    hide Fold, Do, Add, Sub;
    var base := BaseReg(b);
    match idx
    case I4(n) =>
      FoldTwo(Do, Quiet(MovRR(0, base)), Quiet(OnR0(AddImm(n))), s);
      DoMov(0, base, s);
      DoOnR0(AddImm(n), Later(s, 1).Set(0, s.R(base)));
    case I16(v) =>
      DoAppend(LoadR0(v), [Quiet(AddRR(0, base))], s);
      LoadR0Ok(v, s);
      FoldFirst(Do, Quiet(AddRR(0, base)), [], Later(s, 2).Set(0, v));
      DoAdd(0, base, Later(s, 2).Set(0, v));
      AddCommutes(v, s.R(base));
    case IReg(x) =>
      AddCommutes(s.R(x), s.R(base));
      if regFirst {
        SumOk(x, base, s);
      } else {
        SumOk(base, x, s);
      }
  }

  lemma AddCommutes(a: Word, b: Word)
    ensures Add(a, b) == Add(b, a)
  {
  }

  lemma AddSmall(a: nat, b: nat)
    requires a + b < 0x10000
    ensures Add(a, b) == a + b
  {
  }

  lemma {:induction false} SumOk(x: Reg, y: Reg, s: State)
    requires Room(s, 2)
    requires x != PC && y != PC && y != 0
    ensures DoAll([Quiet(MovRR(0, x)), Quiet(AddRR(0, y))], s) == Later(s, 2).Set(0, Add(s.R(x), s.R(y)))
  {
    hide Fold, Do, Add, Sub;
    FoldTwo(Do, Quiet(MovRR(0, x)), Quiet(AddRR(0, y)), s);
    DoMov(0, x, s);
    DoAdd(0, y, Later(s, 1).Set(0, s.R(x)));
  }

  lemma {:induction false} SpillOk(s: State)
    requires Room(s, 3)
    ensures DoAll(SpillR1, s) == Later(s, 3).Set(SP, Below(s)).Store(Below(s), s.R(1)).Set(1, s.R(0))
  {
    hide Fold, Do, Add, Sub;
    FoldThree(Do, Quiet(Dec(SP)), Quiet(MovMR(SP, 1)), Quiet(MovRR(1, 0)), s);
    DoDec(s);
    var s1 := Later(s, 1).Set(SP, Below(s));
    DoStore(SP, 1, s1);
    DoMov(1, 0, Later(s1, 1).Store(Below(s), s.R(1)));
  }

  lemma {:induction false} RestoreOk(s: State)
    requires Room(s, 2)
    ensures DoAll(RestoreR1, s) == Later(s, 2).Set(1, s.mem[s.R(SP)]).Set(SP, Above(s))
  {
    hide Fold, Do, Add, Sub;
    FoldTwo(Do, Quiet(MovRM(1, SP)), Quiet(Inc(SP)), s);
    DoLoad(1, SP, s);
    DoInc(Later(s, 1).Set(1, s.mem[s.R(SP)]));
  }

  lemma {:induction false} FetchOk(src: Source, s: State)
    requires Room(s, 3)
    ensures |Fetch(src)| <= 3 && DoAll(Fetch(src), s) == Later(s, |Fetch(src)|).Set(0, Value(src, s))
  {
    hide Fold, Do, Add, Sub;
    match src
    case OfReg(x) => FoldFirst(Do, Quiet(MovRR(0, x)), [], s); DoMov(0, x, s);
    case OfImm(v) => LoadR0Ok(v, s);
    case AtReg(x) => FoldFirst(Do, Quiet(MovRM(0, x)), [], s); DoLoad(0, x, s);
    case AtImm(a) =>
      DoAppend(LoadR0(a), [Quiet(MovRM(0, 0))], s);
      LoadR0Ok(a, s);
      FoldFirst(Do, Quiet(MovRM(0, 0)), [], Later(s, 2).Set(0, a));
      DoLoad(0, 0, Later(s, 2).Set(0, a));
  }

  // ----- bodies -----

  /** Where the expansion ends. */
  function End(m: Micro, f: Mark, s: State): Word
    requires Room(s, |Body(m, f)|)
  {
    s.pc + |Body(m, f)|
  }

  /** The body ends in the promised state, but for R0 and scratch, exactly if the promise can be kept. */
  ghost predicate Correct(m: Micro, f: Mark, s: State)
    requires Room(s, |Body(m, f)|)
  {
    Same(m, s, DoAll(Body(m, f), s), Meant(m, f, s, End(m, f, s))) <==> Kept(m, f, s, End(m, f, s))
  }

  lemma ResultSame(op: R0Op, a: Word, s: State, t: State)
    requires t.flags == s.flags && forall r: Reg :: IsGeneral(r) ==> t.R(r) == s.R(r)
    requires op.LowLow? || op.LowHigh? || op.HighLow? || op.HighHigh? || op.And? || op.Or? ==> IsGeneral(op.y)
    ensures Result(op, a, t) == Result(op, a, s) && ResultFlags(op, a, t) == ResultFlags(op, a, s)
  {
  }

  lemma ThroughOk(op: R0Op, x: General, f: Mark, s: State)
    requires Room(s, 3)
    requires Exists(Through(op, x))
    ensures Correct(Through(op, x), f, s)
  {
    hide Fold, Do, Add, Sub, Result, ResultFlags;
    FoldThree(Do, Quiet(MovRR(0, x)), Marked(f, OnR0(op)), Quiet(MovRR(x, 0)), s);
    DoMov(0, x, s);
    var s1 := Later(s, 1).Set(0, s.R(x));
    DoMarked(f, OnR0(op), s1);
    ResultSame(op, s.R(x), s, Later(s1, 1));
    DoMov(x, 0, Effect(OnR0(op), Sets(f, OnR0(op)), Later(s1, 1)));
  }

  lemma Imm16Ok(k: Kind16, x: General, v: Word, f: Mark, s: State)
    requires Room(s, 3)
    ensures Correct(Imm16(k, x, v), f, s)
  {
    hide Fold, Do, Add, Sub, AddFlags, SubFlags, MovFlags;
    DoAppend(LoadR0(v), [Marked(f, Core16(k, x))], s);
    LoadR0Ok(v, s);
    var s1 := Later(s, 2).Set(0, v);
    FoldFirst(Do, Marked(f, Core16(k, x)), [], s1);
    DoMarked(f, Core16(k, x), s1);
  }

  lemma {:induction false} BitwiseCommutes(fn: BitFn, k: nat, x: nat, y: nat)
    ensures Bitwise(fn, k, x, y) == Bitwise(fn, k, y, x)
  {
    if k > 0 {
      BitwiseCommutes(fn, k - 1, x / 2, y / 2);
    }
  }

  lemma LogicOk(or: bool, x: General, src: Source, f: Mark, s: State)
    requires Room(s, 5)
    requires Exists(Logic(or, x, src))
    ensures Correct(Logic(or, x, src), f, s)
  {
    hide Fold, Do, Add, Sub, Bits, MovFlags, Fetch;
    var op := if or then Or(x) else And(x);
    DoAppend(Fetch(src), [Marked(f, OnR0(op)), Quiet(MovRR(x, 0))], s);
    FetchOk(src, s);
    var v := Value(src, s);
    var s1 := Later(s, |Fetch(src)|).Set(0, v);
    FoldTwo(Do, Marked(f, OnR0(op)), Quiet(MovRR(x, 0)), s1);
    DoMarked(f, OnR0(op), s1);
    DoMov(x, 0, Effect(OnR0(op), Sets(f, OnR0(op)), Later(s1, 1)));
    BitsCommute(if or then OrF else AndF, s.R(x), v);
  }

  lemma BitsCommute(fn: BitFn, x: Word, y: Word)
    ensures Bits(fn, x, y) == Bits(fn, y, x)
  {
    BitwiseCommutes(fn, 16, x, y);
  }

  lemma PushRegOk(x: General, f: Mark, s: State)
    requires Room(s, 2)
    ensures Correct(Push(OfReg(x)), f, s)
  {
    hide Fold, Do, Add, Sub, MovFlags;
    FoldTwo(Do, Quiet(Dec(SP)), Marked(f, MovMR(SP, x)), s);
    DoDec(s);
    DoMarked(f, MovMR(SP, x), Later(s, 1).Set(SP, Below(s)));
  }

  lemma FetchSize(src: Source)
    ensures |Fetch(src)| <= 3
  {
  }

  lemma {:induction false} PushRuns(src: Source, f: Mark, s: State)
    requires Room(s, 5)
    requires !src.OfReg?
    ensures |Fetch(src)| <= 3
    ensures var v := Value(src, s);
            DoAll(Body(Push(src), f), s) ==
              Moved(Later(s, |Fetch(src)| + 2).Set(SP, Below(s)).Set(0, v).Store(Below(s), v), f, v)
  {
    hide Fold, Do, Add, Sub, MovFlags, Fetch;
    var last, v := Marked(f, MovMR(SP, 0)), Value(src, s);
    FetchSize(src);
    var s1 := Later(s, 1).Set(SP, Below(s));
    FoldFirst(Do, Quiet(Dec(SP)), Fetch(src) + [last], s);
    DoDec(s);
    DoAppend(Fetch(src), [last], s1);
    FetchOk(src, s1);
    var s2 := Later(s1, |Fetch(src)|).Set(0, v);
    FoldFirst(Do, last, [], s2);
    DoMarked(f, MovMR(SP, 0), s2);
  }

  lemma PushOk(src: Source, f: Mark, s: State)
    requires Room(s, 5)
    ensures Correct(Push(src), f, s)
  {
    hide Fold, MovFlags, Fetch;
    if src.OfReg? {
      PushRegOk(src.x, f, s);
    } else {
      PushRuns(src, f, s);
    }
  }

  lemma PopOk(x: General, f: Mark, s: State)
    requires Room(s, 2)
    ensures Correct(Pop(x), f, s)
  {
    hide Fold, Do, Add, Sub, MovFlags;
    FoldTwo(Do, Marked(f, MovRM(x, SP)), Quiet(Inc(SP)), s);
    DoMarked(f, MovRM(x, SP), s);
    DoInc(Effect(MovRM(x, SP), Sets(f, MovRM(x, SP)), Later(s, 1)));
  }

  /** Pop the top of the stack into R0, then use it. */
  lemma {:induction false} PopR0Ok(i: Core, f: Mark, s: State)
    requires Room(s, 3)
    ensures DoAll([Quiet(MovRM(0, SP)), Quiet(Inc(SP)), Marked(f, i)], s) ==
            Effect(i, Sets(f, i), Later(s, 3).Set(0, s.mem[s.R(SP)]).Set(SP, Above(s)))
  {
    hide Fold, Do, Add, Sub, Effect, Sets;
    FoldThree(Do, Quiet(MovRM(0, SP)), Quiet(Inc(SP)), Marked(f, i), s);
    DoLoad(0, SP, s);
    var s1 := Later(s, 1).Set(0, s.mem[s.R(SP)]);
    DoInc(s1);
    DoMarked(f, i, Later(s1, 1).Set(SP, Above(s)));
  }

  lemma ReturnOk(f: Mark, s: State)
    requires Room(s, 3)
    ensures Correct(Return, f, s)
  {
    hide Fold, Do, Add, Sub, MovFlags;
    PopR0Ok(MovRR(PC, 0), f, s);
  }

  lemma PopAtRegOk(x: General, f: Mark, s: State)
    requires Room(s, 3)
    ensures Correct(PopAtReg(x), f, s)
  {
    hide Fold, Do, Add, Sub, MovFlags;
    PopR0Ok(MovMR(x, 0), f, s);
  }

  // ----- popping to an immediate address -----

  /** R1 kept below the stack, the top of the stack in R1, stored at the address in R0. */
  lemma {:induction false} PopThroughR1(f: Mark, s: State)
    requires Room(s, 5)
    ensures DoAll([Quiet(Dec(SP)), Quiet(MovMR(SP, 1)), Quiet(Inc(SP)), Quiet(MovRM(1, SP)), Marked(f, MovMR(0, 1))], s) ==
            Moved(Later(s, 5).Store(Below(s), s.R(1)).Set(1, s.mem[s.R(SP)]).Store(s.R(0), s.mem[s.R(SP)]), f,
                  s.mem[s.R(SP)])
  {
    hide Fold, Do, Add, Sub, MovFlags;
    FoldFive(Do, Quiet(Dec(SP)), Quiet(MovMR(SP, 1)), Quiet(Inc(SP)), Quiet(MovRM(1, SP)), Marked(f, MovMR(0, 1)), s);
    DoDec(s);
    var s1 := Later(s, 1).Set(SP, Below(s));
    DoStore(SP, 1, s1);
    var s2 := Later(s1, 1).Store(Below(s), s.R(1));
    DoInc(s2);
    DownUp(s.R(SP));
    SpBack(Later(s, 3).Store(Below(s), s.R(1)), Below(s));
    var s3 := Later(s, 3).Store(Below(s), s.R(1));
    DoLoad(1, SP, s3);
    BelowKept(s);
    var s4 := Later(s3, 1).Set(1, s.mem[s.R(SP)]);
    DoMarked(f, MovMR(0, 1), s4);
  }

  lemma {:induction false} UnspillAndDrop(s: State)
    requires Room(s, 4)
    ensures DoAll([Quiet(Dec(SP)), Quiet(MovRM(1, SP)), Quiet(Inc(SP)), Quiet(Inc(SP))], s) ==
            Later(s, 4).Set(1, s.mem[Below(s)]).Set(SP, Above(s))
  {
    hide Fold, Do, Add, Sub;
    FoldFour(Do, Quiet(Dec(SP)), Quiet(MovRM(1, SP)), Quiet(Inc(SP)), Quiet(Inc(SP)), s);
    DoDec(s);
    var s1 := Later(s, 1).Set(SP, Below(s));
    DoLoad(1, SP, s1);
    var s2 := Later(s1, 1).Set(1, s.mem[Below(s)]);
    DoInc(s2);
    DownUp(s.R(SP));
    var s3 := Later(s, 3).Set(1, s.mem[Below(s)]);
    SpBack(s3, Below(s));
    assert s.regs[13 := Below(s)][1 := s.mem[Below(s)]] == s.regs[1 := s.mem[Below(s)]][13 := Below(s)];
    DoInc(s3);
  }

  lemma {:induction false} PopAtImmRuns(a: Word, f: Mark, s: State)
    requires Room(s, 11)
    ensures var v := s.mem[s.R(SP)];
            var t := Later(s, 11).Set(0, a).Store(Below(s), s.R(1)).Store(a, v);
            DoAll(Body(PopAtImm(a), f), s) == Moved(t.Set(1, t.mem[Below(s)]).Set(SP, Above(s)), f, v)
  {
    hide Fold, MovFlags;
    var first := [Quiet(Dec(SP)), Quiet(MovMR(SP, 1)), Quiet(Inc(SP)), Quiet(MovRM(1, SP)), Marked(f, MovMR(0, 1))];
    var last := [Quiet(Dec(SP)), Quiet(MovRM(1, SP)), Quiet(Inc(SP)), Quiet(Inc(SP))];
    DoAppend(LoadR0(a), first + last, s);
    LoadR0Ok(a, s);
    var s1 := Later(s, 2).Set(0, a);
    DoAppend(first, last, s1);
    PopThroughR1(f, s1);
    UnspillAndDrop(DoAll(first, s1));
  }

  lemma PopAtImmOk(a: Word, f: Mark, s: State)
    requires Room(s, 11)
    ensures Correct(PopAtImm(a), f, s)
  {
    hide Fold, MovFlags, Add, Sub;
    BelowKept(s);
    PopAtImmRuns(a, f, s);
    var t, u := DoAll(Body(PopAtImm(a), f), s), Meant(PopAtImm(a), f, s, End(PopAtImm(a), f, s));
    assert forall r: nat :: 2 <= r < 14 ==> t.regs[r] == u.regs[r];
    assert u.regs[1] == s.R(1) && t.regs[1] == if a == Below(s) then s.mem[s.R(SP)] else s.R(1);
  }

  // ----- calls -----

  lemma {:induction false} PushPcOk(n: Quartet, s: State)
    requires s.pc + 4 < 0x10000 && s.pc + 1 + n < 0x10000
    ensures |PushPc(n)| == 4
    ensures var ret := s.pc + 1 + n;
            DoAll(PushPc(n), s) == Later(s, 4).Set(0, ret).Set(SP, Below(s)).Store(Below(s), ret)
  {
    hide Fold, Do, Add, Sub;
    FoldFour(Do, Quiet(MovRR(0, PC)), Quiet(OnR0(AddImm(n))), Quiet(Dec(SP)), Quiet(MovMR(SP, 0)), s);
    MovPc(s);
    var s1 := Later(s, 1).Set(0, Later(s, 1).pc);
    DoOnR0(AddImm(n), s1);
    AddSmall(s.pc + 1, n);
    var s2 := Later(s1, 1).Set(0, s.pc + 1 + n);
    DoDec(s2);
    DoStore(SP, 0, Later(s2, 1).Set(SP, Below(s)));
  }

  lemma MovPc(s: State)
    requires Room(s, 1)
    ensures Do(Quiet(MovRR(0, PC)), s) == Later(s, 1).Set(0, Later(s, 1).pc)
  {
  }

  /** Everything before the final jump of a call: the return address is on the stack. */
  function Pushed(t: Target, s: State, next: Word): State
    requires Room(s, 7)
  {
    var u := s.Set(SP, Below(s)).Store(Below(s), next);
    match t
    case CallImm(v) => Later(u, 6).Set(0, v)
    case CallAtImm(a) => Later(u, 7).Set(0, u.mem[a])
    case _ => Later(u, 4).Set(0, next)
  }

  function Jump(t: Target): Core {
    match t
    case CallReg(x) => MovRR(PC, x)
    case CallAtReg(x) => MovRM(PC, x)
    case CallImm(v) => MovRR(PC, 0)
    case CallAtImm(a) => MovRR(PC, 0)
    case Near(off) => AddPc(off)
  }

  lemma {:induction false} CallRuns(t: Target, f: Mark, s: State)
    requires Room(s, 8)
    ensures var next := End(Call(t), f, s);
            DoAll(Body(Call(t), f), s) == Effect(Jump(t), Sets(f, Jump(t)), Later(Pushed(t, s, next), 1))
  {
    hide Fold, Do, Add, Sub, Effect, Sets;
    var jump := Marked(f, Jump(t));
    var next := End(Call(t), f, s);
    match t
    case CallImm(v) =>
      PushPcOk(6, s);
      var s1 := DoAll(PushPc(6), s);
      DoAppend(PushPc(6), LoadR0(v) + [jump], s);
      DoAppend(LoadR0(v), [jump], s1);
      LoadR0Ok(v, s1);
      assert s1.regs[0 := v] == s.regs[13 := Below(s)][0 := v];
      LastJump(f, Jump(t), Pushed(t, s, next));
    case CallAtImm(a) =>
      PushPcOk(7, s);
      var s1 := DoAll(PushPc(7), s);
      DoAppend(PushPc(7), LoadR0(a) + [Quiet(MovRM(0, 0)), jump], s);
      DoAppend(LoadR0(a), [Quiet(MovRM(0, 0)), jump], s1);
      LoadR0Ok(a, s1);
      var s2 := Later(s1, 2).Set(0, a);
      FoldTwo(Do, Quiet(MovRM(0, 0)), jump, s2);
      DoLoad(0, 0, s2);
      var w := s2.mem[a];
      assert s2.regs[0 := w] == s.regs[13 := Below(s)][0 := w];
      DoMarked(f, Jump(t), Pushed(t, s, next));
    case CallReg(_) => ShortCallRuns(t, f, s);
    case CallAtReg(_) => ShortCallRuns(t, f, s);
    case Near(_) => ShortCallRuns(t, f, s);
  }

  lemma {:induction false} ShortCallRuns(t: Target, f: Mark, s: State)
    requires Room(s, 8) && (t.CallReg? || t.CallAtReg? || t.Near?)
    ensures DoAll(Body(Call(t), f), s) ==
            Effect(Jump(t), Sets(f, Jump(t)), Later(Pushed(t, s, End(Call(t), f, s)), 1))
  {
    hide Fold, Do, Effect, Sets, Add, Sub;
    assert Body(Call(t), f) == PushPc(4) + [Marked(f, Jump(t))];
    PushPcOk(4, s);
    DoAppend(PushPc(4), [Marked(f, Jump(t))], s);
    var next := s.pc + 5;
    assert s.regs[0 := next][13 := Below(s)] == s.regs[13 := Below(s)][0 := next];
    LastJump(f, Jump(t), Pushed(t, s, next));
  }

  lemma {:induction false} LastJump(f: Mark, i: Core, s: State)
    requires Room(s, 1)
    ensures DoAll([Marked(f, i)], s) == Effect(i, Sets(f, i), Later(s, 1))
  {
    hide Do, Effect;
    FoldFirst(Do, Marked(f, i), [], s);
    DoMarked(f, i, s);
  }

  lemma JumpEffect(t: Target, fl: bool, s: State)
    ensures t.CallReg? ==> Effect(Jump(t), fl, s) == s.Set(PC, s.R(t.x)).Flag(fl, MovFlags(s.flags, s.R(t.x)))
    ensures t.CallAtReg? ==>
              Effect(Jump(t), fl, s) == s.Set(PC, s.mem[s.R(t.x)]).Flag(fl, MovFlags(s.flags, s.mem[s.R(t.x)]))
    ensures t.CallImm? || t.CallAtImm? ==>
              Effect(Jump(t), fl, s) == s.Set(PC, s.R(0)).Flag(fl, MovFlags(s.flags, s.R(0)))
    ensures t.Near? ==>
              Effect(Jump(t), fl, s) == s.(pc := (s.pc + t.off) % 0x10000).Flag(fl, AddFlags(s.flags, s.pc, t.off % 0x10000))
  {
    hide MovFlags, AddFlags;
  }

  lemma JumpSets(t: Target, f: Mark)
    ensures Sets(f, Jump(t)) == f.Fl?
  {
  }

  lemma CallOk(t: Target, f: Mark, s: State)
    requires Room(s, 8)
    ensures Correct(Call(t), f, s)
  {
    hide Fold, MovFlags, AddFlags, Effect, Sets, Jump, Add, Sub;
    CallRuns(t, f, s);
    JumpSets(t, f);
    JumpEffect(t, f.Fl?, Later(Pushed(t, s, End(Call(t), f, s)), 1));
  }

  // ----- stack arithmetic -----

  lemma {:induction false} TwoTopRuns(i: Core, f: Mark, s: State)
    requires Room(s, 4)
    requires i == AddRM(0, SP) || i == SubRM(0, SP)
    ensures var u := Effect(i, Sets(f, i), Later(s, 3).Set(0, s.mem[s.R(SP)]).Set(SP, Above(s)));
            DoAll(TwoTop(i, f), s) == Later(u, 1).Store(Above(s), u.R(0))
  {
    hide Fold, Do, Add, Sub, AddFlags, SubFlags;
    FoldFour(Do, Quiet(MovRM(0, SP)), Quiet(Inc(SP)), Marked(f, i), Quiet(MovMR(SP, 0)), s);
    DoLoad(0, SP, s);
    var s1 := Later(s, 1).Set(0, s.mem[s.R(SP)]);
    DoInc(s1);
    var s2 := Later(s1, 1).Set(SP, Above(s));
    DoMarked(f, i, s2);
    DoStore(SP, 0, Effect(i, Sets(f, i), Later(s2, 1)));
  }

  lemma AddTopOk(f: Mark, s: State)
    requires Room(s, 4)
    ensures Correct(AddTop, f, s)
  {
    hide Fold, AddFlags;
    TwoTopRuns(AddRM(0, SP), f, s);
  }

  lemma SubTopOk(f: Mark, s: State)
    requires Room(s, 4)
    ensures Correct(SubTop, f, s)
  {
    hide Fold, SubFlags;
    TwoTopRuns(SubRM(0, SP), f, s);
  }

  lemma OnR0Effect(op: R0Op, f: Mark, s: State)
    requires op.Shl? || op.Shr? || op.NotR0?
    ensures Effect(OnR0(op), Sets(f, OnR0(op)), s) ==
            s.Set(0, Result(op, s.R(0), s)).Flag(!f.Nf?, ResultFlags(op, s.R(0), s))
  {
    hide Result, ResultFlags;
  }

  lemma {:induction false} TopOpRuns(op: R0Op, f: Mark, s: State)
    requires Room(s, 3)
    requires op.Shl? || op.Shr? || op.NotR0?
    ensures var a := s.mem[s.R(SP)];
            var r := Result(op, a, s);
            DoAll(TopOp(op, f), s) == Later(s, 3).Set(0, r).Store(s.R(SP), r).Flag(!f.Nf?, ResultFlags(op, a, s))
  {
    hide Fold, Do, Add, Sub, Effect, Sets, Result, ResultFlags;
    FoldThree(Do, Quiet(MovRM(0, SP)), Marked(f, OnR0(op)), Quiet(MovMR(SP, 0)), s);
    DoLoad(0, SP, s);
    var a := s.mem[s.R(SP)];
    var s1 := Later(s, 1).Set(0, a);
    DoMarked(f, OnR0(op), s1);
    OnR0Effect(op, f, Later(s1, 1));
    ResultSame(op, a, s, Later(s1, 1));
    DoStore(SP, 0, Effect(OnR0(op), Sets(f, OnR0(op)), Later(s1, 1)));
  }

  lemma TopOpSize(op: R0Op, f: Mark)
    ensures |TopOp(op, f)| == 3
  {
  }

  lemma OnTopOk(m: Micro, op: R0Op, f: Mark, s: State)
    requires Room(s, 3)
    requires (m.ShlTop? && op == Shl(m.n)) || (m.ShrTop? && op == Shr(m.n)) || (m.NotTop? && op == NotR0)
    ensures Correct(m, f, s)
  {
    hide Fold, Result, ResultFlags, TopOp;
    TopOpSize(op, f);
    TopOpRuns(op, f, s);
  }

  lemma {:induction false} LogicTopRuns(op: R0Op, f: Mark, s: State)
    requires Room(s, 9)
    requires op == And(1) || op == Or(1)
    ensures var v := Bits(if op.Or? then OrF else AndF, s.mem[s.R(SP)], s.mem[Above(s)]);
            DoAll(LogicTop(op, f), s) ==
              Later(s, 9).Set(0, v).Store(s.R(SP), s.R(1)).Store(Above(s), v).Set(SP, Above(s))
                .Flag(!f.Nf?, MovFlags(s.flags, v))
  {
    hide Fold, Do, Add, Sub, Bits, MovFlags;
    var first := [Quiet(MovRM(0, SP)), Quiet(MovMR(SP, 1)), Quiet(Inc(SP)), Quiet(MovRM(1, SP))] + [Marked(f, OnR0(op))];
    var last := [Quiet(MovMR(SP, 0)), Quiet(Dec(SP)), Quiet(MovRM(1, SP)), Quiet(Inc(SP))];
    assert LogicTop(op, f) == first + last;
    DoAppend(first, last, s);
    LogicFirst(op, f, s);
    var s1 := DoAll(first, s);
    DownUp(s.R(SP));
    BelowKept(s);
    LogicLast(s1);
    var v := Bits(if op.Or? then OrF else AndF, s.mem[s.R(SP)], s.mem[Above(s)]);
    assert s1.regs[1 := s.regs[1]] == s.regs[0 := v][13 := Above(s)];
  }

  /** The popped word in R0, R1 in its place, the next word in R1. */
  lemma {:induction false} LogicLoad(s: State)
    requires Room(s, 4)
    ensures DoAll([Quiet(MovRM(0, SP)), Quiet(MovMR(SP, 1)), Quiet(Inc(SP)), Quiet(MovRM(1, SP))], s) ==
            Later(s, 4).Set(0, s.mem[s.R(SP)]).Store(s.R(SP), s.R(1)).Set(SP, Above(s)).Set(1, s.mem[Above(s)])
  {
    hide Fold, Do, Add, Sub;
    FoldFour(Do, Quiet(MovRM(0, SP)), Quiet(MovMR(SP, 1)), Quiet(Inc(SP)), Quiet(MovRM(1, SP)), s);
    DoLoad(0, SP, s);
    var s1 := Later(s, 1).Set(0, s.mem[s.R(SP)]);
    DoStore(SP, 1, s1);
    var s2 := Later(s1, 1).Store(s.R(SP), s.R(1));
    DoInc(s2);
    BelowKept(s);
    DoLoad(1, SP, Later(s2, 1).Set(SP, Above(s)));
  }

  lemma LogicEffect(op: R0Op, f: Mark, s: State)
    requires op == And(1) || op == Or(1)
    ensures var v := Bits(if op.Or? then OrF else AndF, s.R(0), s.R(1));
            Effect(OnR0(op), Sets(f, OnR0(op)), s) == s.Set(0, v).Flag(!f.Nf?, MovFlags(s.flags, v))
  {
    hide Bits, MovFlags;
  }

  lemma {:induction false} LogicFirst(op: R0Op, f: Mark, s: State)
    requires Room(s, 5)
    requires op == And(1) || op == Or(1)
    ensures var v := Bits(if op.Or? then OrF else AndF, s.mem[s.R(SP)], s.mem[Above(s)]);
            DoAll([Quiet(MovRM(0, SP)), Quiet(MovMR(SP, 1)), Quiet(Inc(SP)), Quiet(MovRM(1, SP))] + [Marked(f, OnR0(op))], s) ==
              Later(s, 5).Set(0, v).Store(s.R(SP), s.R(1)).Set(SP, Above(s)).Set(1, s.mem[Above(s)])
                .Flag(!f.Nf?, MovFlags(s.flags, v))
  {
    hide Fold, Do, Bits, MovFlags, Add, Sub, Effect, Result, ResultFlags, Sets;
    DoAppend([Quiet(MovRM(0, SP)), Quiet(MovMR(SP, 1)), Quiet(Inc(SP)), Quiet(MovRM(1, SP))], [Marked(f, OnR0(op))], s);
    LogicLoad(s);
    var s1 := Later(s, 4).Set(0, s.mem[s.R(SP)]).Store(s.R(SP), s.R(1)).Set(SP, Above(s)).Set(1, s.mem[Above(s)]);
    LastJump(f, OnR0(op), s1);
    LogicEffect(op, f, Later(s1, 1));
    LogicRegs(s.regs, s.mem[s.R(SP)], Above(s), s.mem[Above(s)],
              Bits(if op.Or? then OrF else AndF, s.mem[s.R(SP)], s.mem[Above(s)]));
  }

  lemma LogicRegs(r: Regs, a: Word, sp: Word, b: Word, v: Word)
    ensures r[0 := a][13 := sp][1 := b][0 := v] == r[0 := v][13 := sp][1 := b]
  {
  }

  lemma {:induction false} LogicLast(s: State)
    requires Room(s, 4)
    ensures DoAll([Quiet(MovMR(SP, 0)), Quiet(Dec(SP)), Quiet(MovRM(1, SP)), Quiet(Inc(SP))], s) ==
            Later(s, 4).Store(s.R(SP), s.R(0)).Set(1, s.mem[Below(s)])
  {
    hide Fold, Do, Add, Sub;
    FoldFour(Do, Quiet(MovMR(SP, 0)), Quiet(Dec(SP)), Quiet(MovRM(1, SP)), Quiet(Inc(SP)), s);
    DoStore(SP, 0, s);
    var s1 := Later(s, 1).Store(s.R(SP), s.R(0));
    DoDec(s1);
    var s2 := Later(s1, 1).Set(SP, Below(s));
    DoLoad(1, SP, s2);
    DownUp(s.R(SP));
    DoInc(Later(s2, 1).Set(1, s1.mem[Below(s)]));
    BelowKept(s);
    var v := s.mem[Below(s)];
    assert s.regs[13 := Below(s)][1 := v][13 := s.regs[13]] == s.regs[1 := v];
  }

  lemma BelowKept(s: State)
    ensures Below(s) != s.R(SP) && Above(s) != s.R(SP)
  {
    assert Below(s) == if s.R(SP) == 0 then 0xFFFF else s.R(SP) - 1;
    assert Above(s) == if s.R(SP) == 0xFFFF then 0 else s.R(SP) + 1;
  }

  lemma AndTopOk(f: Mark, s: State)
    requires Room(s, 9)
    ensures Correct(AndTop, f, s)
  {
    hide Fold, Bits, MovFlags;
    LogicTopRuns(And(1), f, s);
  }

  lemma OrTopOk(f: Mark, s: State)
    requires Room(s, 9)
    ensures Correct(OrTop, f, s)
  {
    hide Fold, Bits, MovFlags;
    LogicTopRuns(Or(1), f, s);
  }

  // ----- stack and local context -----

  lemma WriteRegOk(b: Base, idx: Index, x: General, f: Mark, s: State)
    requires Room(s, 5)
    ensures Correct(Write(b, idx, OfReg(x)), f, s)
  {
    hide Fold, Do, MovFlags, AddressR0, Address;
    AddressOk(b, idx, true, s);
    var a, n := Address(b, idx, s), |AddressR0(b, idx, true)|;
    DoAppend(AddressR0(b, idx, true), [Marked(f, MovMR(0, x))], s);
    LastJump(f, MovMR(0, x), Later(s, n).Set(0, a));
  }

  /** R1 spilled, the source fetched, stored through R1, and R1 restored. */
  lemma {:induction false} StoreThroughR1(src: Source, f: Mark, s: State)
    requires Room(s, 9) && !src.OfReg?
    ensures |Fetch(src)| <= 3
    ensures var a, u := s.R(0), s.Store(Below(s), s.R(1));
            var v := Value(src, u);
            var t := Later(u, 6 + |Fetch(src)|).Set(0, v).Store(a, v);
            DoAll(SpillR1 + (Fetch(src) + ([Marked(f, MovMR(1, 0))] + RestoreR1)), s) ==
              Moved(t.Set(1, t.mem[Below(s)]), f, v)
  {
    hide Fold, Do, MovFlags, Fetch, Add, Sub, Effect;
    FetchSize(src);
    var a, n := s.R(0), |Fetch(src)|;
    var store := [Marked(f, MovMR(1, 0))];
    DoAppend(SpillR1, Fetch(src) + (store + RestoreR1), s);
    SpillOk(s);
    var s1 := Later(s, 3).Set(SP, Below(s)).Store(Below(s), s.R(1)).Set(1, a);
    DoAppend(Fetch(src), store + RestoreR1, s1);
    FetchOk(src, s1);
    SameValue(src, s1, s.Store(Below(s), s.R(1)));
    var v := Value(src, s1);
    var s2 := Later(s1, n).Set(0, v);
    DoAppend(store, RestoreR1, s2);
    LastJump(f, MovMR(1, 0), s2);
    StoreEffect(1, 0, f, Later(s2, 1));
    var s3 := Moved(Later(s2, 1).Store(a, v), f, v);
    RestoreOk(s3);
    DownUp(s.R(SP));
    var w := s3.mem[Below(s)];
    assert s.regs[13 := Below(s)][1 := a][0 := v][1 := w][13 := s.regs[13]] == s.regs[0 := v][1 := w];
  }

  lemma StoreEffect(x: Reg, y: Reg, f: Mark, s: State)
    requires x != PC && y != PC
    ensures Effect(MovMR(x, y), Sets(f, MovMR(x, y)), s) == Moved(s.Store(s.R(x), s.R(y)), f, s.R(y))
  {
    hide MovFlags;
  }

  lemma SameValue(src: Source, s: State, t: State)
    requires s.mem == t.mem && forall r: Reg :: IsGeneral(r) ==> s.R(r) == t.R(r)
    ensures Value(src, s) == Value(src, t)
  {
  }

  /** The address the expansion really computes. */
  function Computed(b: Base, idx: Index, src: Source, s: State): Word {
    if BaseReplaces(idx, src) then s.R(BaseReg(b)) else Address(b, idx, s)
  }

  lemma {:induction false} WriteAddressOk(b: Base, idx: Index, src: Source, s: State)
    requires Room(s, 3)
    ensures |WriteAddress(b, idx, src)| <= 3
    ensures DoAll(WriteAddress(b, idx, src), s) ==
            Later(s, |WriteAddress(b, idx, src)|).Set(0, Computed(b, idx, src, s))
  {
    hide Fold, Do, Address, AddressR0, Effect;
    if BaseReplaces(idx, src) {
      var base := BaseReg(b);
      DoAppend(LoadR0(idx.v), [Quiet(MovRR(0, base))], s);
      LoadR0Ok(idx.v, s);
      var s1 := Later(s, 2).Set(0, idx.v);
      FoldFirst(Do, Quiet(MovRR(0, base)), [], s1);
      DoMov(0, base, s1);
      assert s.regs[0 := idx.v][0 := s.R(base)] == s.regs[0 := s.R(base)];
    } else {
      AddressOk(b, idx, false, s);
    }
  }

  /** What a write with a source other than a register does. */
  lemma {:induction false} WriteRuns(b: Base, idx: Index, src: Source, f: Mark, s: State)
    requires Room(s, 12) && !src.OfReg?
    ensures var n := |Body(Write(b, idx, src), f)|;
            var a, u := Computed(b, idx, src, s), s.Store(Below(s), s.R(1));
            var v := Value(src, u);
            var t := u.Set(0, v).Store(a, v);
            && n <= 12
            && DoAll(Body(Write(b, idx, src), f), s) == Later(Moved(t.Set(1, t.mem[Below(s)]), f, v), n)
  {
    hide Fold, Do, MovFlags, Fetch, WriteAddress, Computed, Effect, Add, Sub;
    var a := Computed(b, idx, src, s);
    var tail := SpillR1 + (Fetch(src) + ([Marked(f, MovMR(1, 0))] + RestoreR1));
    WriteAddressOk(b, idx, src, s);
    DoAppend(WriteAddress(b, idx, src), tail, s);
    var s1 := Later(s, |WriteAddress(b, idx, src)|).Set(0, a);
    FetchSize(src);
    StoreThroughR1(src, f, s1);
    SameValue(src, s1.Store(Below(s), s.R(1)), s.Store(Below(s), s.R(1)));
    var v := Value(src, s.Store(Below(s), s.R(1)));
    assert s.regs[0 := a][0 := v] == s.regs[0 := v];
    WriteBody(b, idx, src, f);
  }

  lemma WriteBody(b: Base, idx: Index, src: Source, f: Mark)
    requires !src.OfReg?
    ensures Body(Write(b, idx, src), f) ==
            WriteAddress(b, idx, src) + (SpillR1 + (Fetch(src) + ([Marked(f, MovMR(1, 0))] + RestoreR1)))
  {
  }

  lemma Spilled(src: Source, s: State)
    requires !src.OfReg?
    ensures Value(src, s.Store(Below(s), s.R(1))) == if ReadsBelow(src, s) then s.R(1) else Value(src, s)
    ensures ReadsBelow(src, s) ==> Value(src, s) == s.mem[Below(s)]
  {
  }

  lemma WriteOk(b: Base, idx: Index, src: Source, f: Mark, s: State)
    requires Room(s, 12) && !LosesIndex(Write(b, idx, src)) && !src.OfReg?
    ensures |Body(Write(b, idx, src), f)| <= 12 && Correct(Write(b, idx, src), f, s)
  {
    hide Fold, MovFlags, Body, Address, Value, ReadsBelow, Add, Sub;
    WriteRuns(b, idx, src, f, s);
    Spilled(src, s);
    NoIndex(b, idx, src, s);
    var m := Write(b, idx, src);
    var a, below := Address(b, idx, s), Below(s);
    var w := Value(src, s.Store(below, s.R(1)));
    var t, u := DoAll(Body(m, f), s), Meant(m, f, s, End(m, f, s));
    assert forall r: nat :: 2 <= r < 14 ==> t.regs[r] == u.regs[r];
    assert u.regs[1] == s.R(1) && t.regs[1] == if a == below then w else s.R(1);
    assert t.mem[a] == w && u.mem[a] == Value(src, s);
  }

  lemma NoIndex(b: Base, idx: Index, src: Source, s: State)
    requires !LosesIndex(Write(b, idx, src))
    ensures Computed(b, idx, src, s) == Address(b, idx, s)
  {
    if BaseReplaces(idx, src) {
      AddSmall(s.R(BaseReg(b)), 0);
    }
  }

  /** With a lost index the value goes to the base address. */
  lemma LostIndexOk(b: Base, idx: Index, src: Source, f: Mark, s: State)
    requires Room(s, 12) && LosesIndex(Write(b, idx, src))
    ensures |Body(Write(b, idx, src), f)| <= 12 && Correct(Write(b, idx, src), f, s)
  {
    hide Fold, Body, Address, Value, ReadsBelow, Add, Sub;
    WriteRuns(b, idx, src, f, s);
    Spilled(src, s);
    var m := Write(b, idx, src);
    var a, c, below := Address(b, idx, s), s.R(BaseReg(b)), Below(s);
    assert a != c by { IndexMoves(b, idx, s); }
    var w := Value(src, s.Store(below, s.R(1)));
    var t, u := DoAll(Body(m, f), s), Meant(m, f, s, End(m, f, s));
    assert forall r: nat :: 2 <= r < 14 ==> t.regs[r] == u.regs[r];
    assert u.regs[1] == s.R(1) && t.regs[1] == if c == below then w else s.R(1);
    assert u.mem[a] == Value(src, s) && t.mem[a] == if a == below then s.R(1) else s.mem[a];
    assert t.mem[c] == w && u.mem[c] == s.mem[c];
    assert Scratch(m, s, below) <==> a != below;
  }

  lemma IndexMoves(b: Base, idx: Index, s: State)
    requires idx.I16? && idx.v != 0
    ensures Address(b, idx, s) != s.R(BaseReg(b))
  {
    AddMoves(s.R(BaseReg(b)), idx.v);
  }

  lemma AddMoves(a: Word, v: Word)
    requires v != 0
    ensures Add(a, v) != a
  {
    if a + v >= 0x10000 {
      assert Add(a, v) == a + v - 0x10000;
    }
  }

  // ----- reading from a context -----

  lemma ReadToRegOk(x: General, b: Base, idx: Index, f: Mark, s: State)
    requires Room(s, 5)
    ensures |Body(Read(ToReg(x), b, idx), f)| <= 5 && Correct(Read(ToReg(x), b, idx), f, s)
  {
    hide Fold, Do, MovFlags, AddressR0, Address;
    AddressOk(b, idx, false, s);
    var a, n := Address(b, idx, s), |AddressR0(b, idx, false)|;
    DoAppend(AddressR0(b, idx, false), [Marked(f, MovRM(x, 0))], s);
    LastJump(f, MovRM(x, 0), Later(s, n).Set(0, a));
  }

  lemma ReadToAtRegOk(x: General, b: Base, idx: Index, f: Mark, s: State)
    requires Room(s, 5)
    ensures |Body(Read(ToAtReg(x), b, idx), f)| <= 5 && Correct(Read(ToAtReg(x), b, idx), f, s)
  {
    hide Fold, Do, MovFlags, AddressR0, Address, Effect;
    AddressOk(b, idx, false, s);
    var a, n := Address(b, idx, s), |AddressR0(b, idx, false)|;
    var s1 := Later(s, n).Set(0, a);
    DoAppend(AddressR0(b, idx, false), [Quiet(MovRM(0, 0)), Marked(f, MovMR(x, 0))], s);
    FoldTwo(Do, Quiet(MovRM(0, 0)), Marked(f, MovMR(x, 0)), s1);
    DoLoad(0, 0, s1);
    var s2 := Later(s1, 1).Set(0, s.mem[a]);
    DoMarked(f, MovMR(x, 0), s2);
    StoreEffect(x, 0, f, Later(s2, 1));
  }

  /** R1 spilled, the word in R0 moved to it, stored at an immediate address, and R1 restored. */
  lemma {:induction false} StoreR1At(c: Word, f: Mark, s: State)
    requires Room(s, 8)
    ensures var v, u := s.R(0), s.Store(Below(s), s.R(1));
            var t := Later(u, 8).Set(0, c).Store(c, v);
            DoAll(SpillR1 + (LoadR0(c) + ([Marked(f, MovMR(0, 1))] + RestoreR1)), s) ==
              Moved(t.Set(1, t.mem[Below(s)]), f, v)
  {
    hide Fold, Do, MovFlags, Add, Sub, Effect;
    var v, store := s.R(0), [Marked(f, MovMR(0, 1))];
    DoAppend(SpillR1, LoadR0(c) + (store + RestoreR1), s);
    SpillOk(s);
    var s1 := Later(s, 3).Set(SP, Below(s)).Store(Below(s), s.R(1)).Set(1, v);
    DoAppend(LoadR0(c), store + RestoreR1, s1);
    LoadR0Ok(c, s1);
    var s2 := Later(s1, 2).Set(0, c);
    DoAppend(store, RestoreR1, s2);
    LastJump(f, MovMR(0, 1), s2);
    StoreEffect(0, 1, f, Later(s2, 1));
    var s3 := Moved(Later(s2, 1).Store(c, v), f, v);
    RestoreOk(s3);
    DownUp(s.R(SP));
    var w := s3.mem[Below(s)];
    assert s.regs[13 := Below(s)][1 := v][0 := c][1 := w][13 := s.regs[13]] == s.regs[0 := c][1 := w];
  }

  lemma {:induction false} ReadAtImmRuns(c: Word, b: Base, idx: Index, f: Mark, s: State)
    requires Room(s, 12)
    ensures var n := |Body(Read(ToAtImm(c), b, idx), f)|;
            var v, u := s.mem[Address(b, idx, s)], s.Store(Below(s), s.R(1));
            var t := u.Set(0, c).Store(c, v);
            && n <= 12
            && DoAll(Body(Read(ToAtImm(c), b, idx), f), s) == Later(Moved(t.Set(1, t.mem[Below(s)]), f, v), n)
  {
    hide Fold, Do, MovFlags, AddressR0, Address, Effect, Add, Sub;
    AddressOk(b, idx, true, s);
    var a, n := Address(b, idx, s), |AddressR0(b, idx, true)|;
    var load, tail := [Quiet(MovRM(0, 0))], SpillR1 + (LoadR0(c) + ([Marked(f, MovMR(0, 1))] + RestoreR1));
    DoAppend(AddressR0(b, idx, true), load + tail, s);
    var s1 := Later(s, n).Set(0, a);
    DoAppend(load, tail, s1);
    FoldFirst(Do, Quiet(MovRM(0, 0)), [], s1);
    DoLoad(0, 0, s1);
    var v := s.mem[a];
    var s2 := Later(s1, 1).Set(0, v);
    StoreR1At(c, f, s2);
    assert s.regs[0 := a][0 := v][0 := c] == s.regs[0 := c];
  }

  lemma ReadAtImmOk(c: Word, b: Base, idx: Index, f: Mark, s: State)
    requires Room(s, 12)
    ensures |Body(Read(ToAtImm(c), b, idx), f)| <= 12 && Correct(Read(ToAtImm(c), b, idx), f, s)
  {
    hide Fold, MovFlags, Body, Address, Add, Sub;
    ReadAtImmRuns(c, b, idx, f, s);
    var m := Read(ToAtImm(c), b, idx);
    var below := Below(s);
    var v := s.mem[Address(b, idx, s)];
    var t, u := DoAll(Body(m, f), s), Meant(m, f, s, End(m, f, s));
    assert forall r: nat :: 2 <= r < 14 ==> t.regs[r] == u.regs[r];
    assert u.regs[1] == s.R(1) && t.regs[1] == if c == below then v else s.R(1);
  }
}
