/** Assembled instructions under a condition, run from the program memory. */
module Bs5Run {
  import opened Options
  import opened Words
  import opened Bs5Isa
  import opened Bs5Micro
  import opened Bs5Ok

  // ----- sizes -----

  lemma AddressSize(b: Base, idx: Index, r: bool)
    ensures |AddressR0(b, idx, r)| == if idx.I16? then 3 else 2
  {
  }

  lemma WriteAddressSize(b: Base, idx: Index, src: Source)
    ensures |WriteAddress(b, idx, src)| == if idx.I16? then 3 else 2
  {
  }

  lemma FetchSizes(src: Source)
    ensures |Fetch(src)| == match src case OfReg(_) => 1 case OfImm(_) => 2 case AtReg(_) => 1 case AtImm(_) => 3
  {
  }

  /** The prologue skips exactly the body, for every composite instruction. */
  lemma SkipIsBody(m: Micro, f: Mark)
    requires Exists(m)
    ensures |Body(m, f)| == SkipSize(m) <= 12
  {
    hide AddressR0, WriteAddress, Fetch, Marked, Quiet, LogicTop, TopOp, TwoTop, CallCells;
    match m
    case Logic(_, _, src) => FetchSizes(src);
    case Push(src) => FetchSizes(src);
    case Write(b, idx, src) =>
      AddressSize(b, idx, true);
      WriteAddressSize(b, idx, src);
      FetchSizes(src);
    case Read(_, b, idx) => AddressSize(b, idx, true); AddressSize(b, idx, false);
    case Call(t) => CallSize(t, f);
    case _ => TopSizes(f);
  }

  lemma CallSize(t: Target, f: Mark)
    ensures |CallCells(t, f)| == match t case CallImm(_) => 7 case CallAtImm(_) => 8 case _ => 5
  {
  }

  lemma TopSizes(f: Mark)
    ensures forall o: R0Op :: |TopOp(o, f)| == 3 && |LogicTop(o, f)| == 9
    ensures forall i: Core :: |TwoTop(i, f)| == 4
  {
  }

  /** Every body does what it should, exactly when the promise can be kept. */
  lemma BodyOk(m: Micro, f: Mark, s: State)
    requires Exists(m) && Room(s, 12)
    ensures |Body(m, f)| == SkipSize(m) <= 12 && Correct(m, f, s)
  {
    hide Correct, Body;
    SkipIsBody(m, f);
    match m
    case Through(op, x) => ThroughOk(op, x, f, s);
    case Imm16(k, x, v) => Imm16Ok(k, x, v, f, s);
    case Logic(or, x, src) => LogicOk(or, x, src, f, s);
    case Push(src) => PushOk(src, f, s);
    case Pop(x) => PopOk(x, f, s);
    case Return => ReturnOk(f, s);
    case PopAtReg(x) => PopAtRegOk(x, f, s);
    case PopAtImm(a) => PopAtImmOk(a, f, s);
    case Call(t) => CallOk(t, f, s);
    case Write(b, idx, src) =>
      if src.OfReg? {
        WriteRegOk(b, idx, src.x, f, s);
      } else if LosesIndex(m) {
        LostIndexOk(b, idx, src, f, s);
      } else {
        WriteOk(b, idx, src, f, s);
      }
    case Read(dst, b, idx) =>
      match dst {
        case ToReg(x) => ReadToRegOk(x, b, idx, f, s);
        case ToAtReg(x) => ReadToAtRegOk(x, b, idx, f, s);
        case ToAtImm(a) => ReadAtImmOk(a, b, idx, f, s);
      }
    case AddTop => AddTopOk(f, s);
    case SubTop => SubTopOk(f, s);
    case ShlTop(n) => OnTopOk(m, Shl(n), f, s);
    case ShrTop(n) => OnTopOk(m, Shr(n), f, s);
    case AndTop => AndTopOk(f, s);
    case OrTop => OrTopOk(f, s);
    case NotTop => OnTopOk(m, NotR0, f, s);
  }

  // ----- straightness -----

  ghost predicate AllFall(cells: seq<Cell>) { forall k :: 0 <= k < |cells| ==> Falls(cells[k].core) }

  lemma FallThenLast(a: seq<Cell>, b: seq<Cell>)
    requires AllFall(a) && Straight(b)
    ensures Straight(a + b)
  {
    hide Falls;
    var all := a + b;
    forall k | 0 <= k < |all| - 1
      ensures Falls(all[k].core)
    {
      if k >= |a| {
        assert all[k] == b[k - |a|];
      }
    }
  }

  lemma FallBoth(a: seq<Cell>, b: seq<Cell>)
    requires AllFall(a) && AllFall(b)
    ensures AllFall(a + b) && Straight(a + b)
  {
    hide Falls;
  }

  lemma BlocksFall(b: Base, idx: Index, src: Source, v: Word, n: Quartet)
    ensures AllFall(LoadR0(v)) && AllFall(AddressR0(b, idx, true)) && AllFall(AddressR0(b, idx, false))
    ensures AllFall(Fetch(src)) && AllFall(WriteAddress(b, idx, src)) && AllFall(SpillR1) && AllFall(RestoreR1)
    ensures AllFall(PushPc(n))
  {
  }

  lemma CallStraight(t: Target, f: Mark)
    ensures Straight(CallCells(t, f))
  {
    hide Falls;
    match t
    case CallImm(v) =>
      BlocksFall(StackBase, I4(0), OfImm(0), v, 6);
      FallThenLast(LoadR0(v), [Marked(f, MovRR(PC, 0))]);
      FallThenLast(PushPc(6), LoadR0(v) + [Marked(f, MovRR(PC, 0))]);
    case CallAtImm(a) =>
      BlocksFall(StackBase, I4(0), OfImm(0), a, 7);
      FetchThenJump(f);
      FallThenLast(LoadR0(a), [Quiet(MovRM(0, 0)), Marked(f, MovRR(PC, 0))]);
      FallThenLast(PushPc(7), LoadR0(a) + [Quiet(MovRM(0, 0)), Marked(f, MovRR(PC, 0))]);
    case _ =>
      BlocksFall(StackBase, I4(0), OfImm(0), 0, 4);
      FallThenLast(PushPc(4), [Marked(f, Jump(t))]);
  }

  lemma FetchThenJump(f: Mark)
    ensures Straight([Quiet(MovRM(0, 0)), Marked(f, MovRR(PC, 0))])
  {
  }

  lemma WriteStraight(b: Base, idx: Index, src: Source, f: Mark)
    ensures Straight(Body(Write(b, idx, src), f))
  {
    hide Falls, AddressR0, WriteAddress, Fetch;
    BlocksFall(b, idx, src, 0, 0);
    StoreFalls(f, 1, 0);
    if src.OfReg? {
      FallThenLast(AddressR0(b, idx, true), [Marked(f, MovMR(0, src.x))]);
    } else {
      var store := [Marked(f, MovMR(1, 0))];
      FallBoth(store, RestoreR1);
      FallBoth(Fetch(src), store + RestoreR1);
      FallBoth(SpillR1, Fetch(src) + (store + RestoreR1));
      FallBoth(WriteAddress(b, idx, src), SpillR1 + (Fetch(src) + (store + RestoreR1)));
      WriteBody(b, idx, src, f);
    }
  }

  lemma StoreFalls(f: Mark, x: Reg, y: Reg)
    ensures AllFall([Marked(f, MovMR(x, y))])
  {
  }

  lemma ReadStraight(dst: Dest, b: Base, idx: Index, f: Mark)
    ensures Straight(Body(Read(dst, b, idx), f))
  {
    hide AddressR0;
    match dst
    case ToReg(x) =>
      BlocksFall(b, idx, OfImm(0), 0, 0);
      FallThenLast(AddressR0(b, idx, false), [Marked(f, MovRM(x, 0))]);
    case ToAtReg(x) =>
      BlocksFall(b, idx, OfImm(0), 0, 0);
      FallThenLast(AddressR0(b, idx, false), [Quiet(MovRM(0, 0)), Marked(f, MovMR(x, 0))]);
    case ToAtImm(a) =>
      BlocksFall(b, idx, OfImm(0), a, 0);
      var load, store := [Quiet(MovRM(0, 0))], [Marked(f, MovMR(0, 1))];
      FallBoth(store, RestoreR1);
      FallBoth(LoadR0(a), store + RestoreR1);
      FallBoth(SpillR1, LoadR0(a) + (store + RestoreR1));
      FallBoth(load, SpillR1 + (LoadR0(a) + (store + RestoreR1)));
      FallThenLast(AddressR0(b, idx, true), load + (SpillR1 + (LoadR0(a) + (store + RestoreR1))));
  }

  lemma PopAtImmStraight(a: Word, f: Mark)
    ensures Straight(Body(PopAtImm(a), f))
  {
    BlocksFall(StackBase, I4(0), OfImm(0), a, 0);
    var first := [Quiet(Dec(SP)), Quiet(MovMR(SP, 1)), Quiet(Inc(SP)), Quiet(MovRM(1, SP)), Marked(f, MovMR(0, 1))];
    var last := [Quiet(Dec(SP)), Quiet(MovRM(1, SP)), Quiet(Inc(SP)), Quiet(Inc(SP))];
    FallThenLast(first, last);
    FallThenLast(LoadR0(a), first + last);
  }

  lemma BodyStraight(m: Micro, f: Mark)
    requires Exists(m)
    ensures Straight(Body(m, f))
  {
    match m
    case Call(t) => CallStraight(t, f);
    case Write(b, idx, src) => WriteStraight(b, idx, src, f);
    case Read(dst, b, idx) => ReadStraight(dst, b, idx, f);
    case PopAtImm(a) => PopAtImmStraight(a, f);
    case Logic(or, x, src) =>
      BlocksFall(StackBase, I4(0), src, 0, 0);
      FallThenLast(Fetch(src), [Marked(f, OnR0(if or then Or(x) else And(x))), Quiet(MovRR(x, 0))]);
    case Imm16(k, x, v) =>
      BlocksFall(StackBase, I4(0), OfImm(0), v, 0);
      FallThenLast(LoadR0(v), [Marked(f, Core16(k, x))]);
    case Push(src) =>
      if !src.OfReg? {
        BlocksFall(StackBase, I4(0), src, 0, 0);
        FallThenLast(Fetch(src), [Marked(f, MovMR(SP, 0))]);
        FallThenLast([Quiet(Dec(SP))], Fetch(src) + [Marked(f, MovMR(SP, 0))]);
      }
    case _ =>
  }

  // ----- conditions -----

  /** The state at the instruction a condition guards, its flag tested. */
  function AtGuard(c: Condition, s: State): State
    requires Room(s, 1)
  {
    if c.Derived? then Later(s, 1).(flags := Tested(c, s.flags)) else s
  }

  function GuardCell(c: Condition, fl: bool, i: Core): Cell {
    match c
    case Plain(cond) => Cell(cond, fl, i)
    case Derived(_, on) => Cell(if on then Xs else Xc, fl, i)
  }

  lemma {:induction false} GuardRuns(code: seq<Cell>, c: Condition, fl: bool, i: Core, s: State)
    requires At(code, s.pc, Guarded(c, fl, i)) && s.pc + 2 < 0x10000
    ensures var n, t := |Guarded(c, fl, i)|, AtGuard(c, s);
            && 1 <= n <= 2 && t.pc == s.pc + n - 1 < |code| && code[t.pc] == GuardCell(c, fl, i)
            && Run(code, s, n) == Some(Do(GuardCell(c, fl, i), t))
  {
    hide Effect;
    if c.Derived? {
      assert code[s.pc] == Quiet(FlagToX(c.bit));
      FlagMoves(c.bit, s);
      assert Run(code, AtGuard(c, s), 1) == Some(Do(GuardCell(c, fl, i), AtGuard(c, s)));
    } else {
      assert Run(code, s, 1) == Some(Do(GuardCell(c, fl, i), s));
    }
  }

  lemma FlagMoves(b: FlagBit, s: State)
    requires Room(s, 1)
    ensures Do(Quiet(FlagToX(b)), s) == Later(s, 1).(flags := s.flags.(x := s.flags.Bit(b)))
  {
  }

  /** Testing keeps the condition: its words execute under the same one each time. */
  lemma TestedHolds(c: Condition, s: State)
    requires Room(s, 1)
    ensures Met(c, s.flags) == AtGuard(c, s).flags.Holds(GuardCell(c, false, AddPc(1)).cond)
    ensures Met(c, Tested(c, s.flags)) == Met(c, s.flags) && Tested(c, Tested(c, s.flags)) == Tested(c, s.flags)
  {
  }

  lemma SkipOne(cond: Cond, s: State)
    requires Room(s, 2)
    ensures Do(Cell(cond, false, AddPc(1)), s) == Later(s, if s.flags.Holds(cond) then 2 else 1)
  {
  }

  lemma JumpOver(n: nat, s: State)
    requires n < 128 && Room(s, n + 1)
    ensures Do(Quiet(AddPc(n)), s) == Later(s, n + 1)
  {
  }

  lemma {:induction false} Unconditional(code: seq<Cell>, s: State)
    ensures Run(code, s, 0) == Some(s) && Met(Plain(Al), s.flags) && Tested(Plain(Al), s.flags) == s.flags
  {
  }

  /** The prologue enters the body if the condition is met and passes it over otherwise; only the program counter
      and the X flag change. */
  lemma PrologueRuns(code: seq<Cell>, c: Condition, n: nat, s: State) returns (k: nat)
    requires n <= 12 && At(code, s.pc, Prologue(c, n)) && s.pc + |Prologue(c, n)| + n < 0x10000
    ensures var p := |Prologue(c, n)|;
            && p <= 3
            && Run(code, s, k) == Some(Later(s, if Met(c, s.flags) then p else p + n).(flags := Tested(c, s.flags)))
  {
    hide At, Run, Met, GuardCell, Do;
    if c == Plain(Al) {
      k := 0;
      Unconditional(code, s);
    } else {
      var guard, over := Guarded(c, false, AddPc(1)), [Quiet(AddPc(n))];
      AtSplit(code, s.pc, guard, over);
      GuardRuns(code, c, false, AddPc(1), s);
      TestedHolds(c, s);
      var t := AtGuard(c, s);
      SkipOne(GuardCell(c, false, AddPc(1)).cond, t);
      if Met(c, s.flags) {
        k := |guard|;
      } else {
        k := |guard| + 1;
        var u := Later(t, 1);
        OneMore(code, u, Quiet(AddPc(n)));
        JumpOver(n, u);
        RunCompose(code, s, |guard|, u, 1);
      }
    }
  }

  lemma {:induction false} OneMore(code: seq<Cell>, s: State, cell: Cell)
    requires At(code, s.pc, [cell])
    ensures Run(code, s, 1) == Some(Do(cell, s))
  {
    hide Do;
    assert Run(code, Do(cell, s), 0) == Some(Do(cell, s));
  }

  /** The state at the first word of the body. */
  function Entered(c: Condition, m: Micro, s: State): State
    requires SkipSize(m) < 128 && Room(s, |Prologue(c, SkipSize(m))|)
  {
    Later(s, |Prologue(c, SkipSize(m))|).(flags := Tested(c, s.flags))
  }

  /** Microprogram preservation, for every composite instruction, flag marking, condition and state. If the
      condition fails only the program counter and the X flag change; if it holds the run reaches a state that
      is the promised one but for R0 and scratch exactly when the promise can be kept there. */
  lemma MicroOk(code: seq<Cell>, c: Condition, f: Mark, m: Micro, s: State) returns (k: nat, t: State)
    requires Exists(m) && At(code, s.pc, Assembled(c, f, m)) && s.pc + 16 < 0x10000
    ensures Run(code, s, k) == Some(t) && |Assembled(c, f, m)| <= 15
    ensures var end := s.pc + |Assembled(c, f, m)|;
            if !Met(c, s.flags) then t == s.(pc := end, flags := Tested(c, s.flags))
            else
              && |Prologue(c, SkipSize(m))| <= 3
              && var e := Entered(c, m, s);
              && (Same(m, e, t, Meant(m, f, e, end)) <==> Kept(m, f, e, end))
  {
    hide At, Run, Body, Same, Meant, Kept, Correct, Tested, Met;
    SkipIsBody(m, f);
    var n := SkipSize(m);
    AtSplit(code, s.pc, Prologue(c, n), Body(m, f));
    PrologueSize(c, n);
    k := PrologueRuns(code, c, n, s);
    t := Later(s, |Prologue(c, n)| + n).(flags := Tested(c, s.flags));
    if Met(c, s.flags) {
      var e := Entered(c, m, s);
      BodyStraight(m, f);
      StraightRuns(code, e.pc, Body(m, f), e);
      t := DoAll(Body(m, f), e);
      RunCompose(code, s, k, e, n);
      k := k + n;
      BodyOk(m, f, e);
      CorrectIs(m, f, e);
    }
  }

  lemma PrologueSize(c: Condition, n: nat)
    requires n < 128
    ensures |Prologue(c, n)| <= 3
  {
  }

  lemma {:induction false} CorrectIs(m: Micro, f: Mark, s: State)
    requires Room(s, |Body(m, f)|) && Correct(m, f, s)
    ensures Same(m, s, DoAll(Body(m, f), s), Meant(m, f, s, s.pc + |Body(m, f)|)) <==>
            Kept(m, f, s, s.pc + |Body(m, f)|)
  {
    hide Same, DoAll, Body, Meant, Kept;
  }

  // ----- call and return -----

  /** A call, a callee that brings the stack pointer and the word under it back, and `mov R15, STACK`: execution
      resumes after the call with the stack pointer restored. */
  lemma CallAndReturn(code: seq<Cell>, target: Target, f: Mark, g: Mark, s: State, u: State)
    returns (k: nat, t: State, j: nat, v: State)
    requires At(code, s.pc, Assembled(Plain(Al), f, Call(target))) && s.pc + 16 < 0x10000
    requires At(code, u.pc, Assembled(Plain(Al), g, Return)) && u.pc + 16 < 0x10000
    ensures Run(code, s, k) == Some(t) && t.R(SP) == Sub(s.R(SP), 1)
    ensures Harmless(Call(target), s, s.pc + |Assembled(Plain(Al), f, Call(target))|) ==>
              t.pc == TargetOf(target, s, s.pc + |Assembled(Plain(Al), f, Call(target))|)
    ensures Run(code, u, j) == Some(v)
    ensures u.R(SP) == t.R(SP) && u.mem[u.R(SP)] == t.mem[t.R(SP)] ==>
              v.pc == s.pc + |Assembled(Plain(Al), f, Call(target))| && v.R(SP) == s.R(SP)
  {
    var call := Call(target);
    var next := s.pc + |Assembled(Plain(Al), f, call)|;
    SkipIsBody(call, f);
    k, t := CallReaches(code, target, f, s);
    j, v := MicroOk(code, Plain(Al), g, Return, u);
    DownUp(s.R(SP));
  }

  /** A call always leaves the address after it on the stack, whatever its target operand. */
  lemma CallReaches(code: seq<Cell>, target: Target, f: Mark, s: State) returns (k: nat, t: State)
    requires At(code, s.pc, Assembled(Plain(Al), f, Call(target))) && s.pc + 16 < 0x10000
    ensures Run(code, s, k) == Some(t)
    ensures var next := s.pc + |Assembled(Plain(Al), f, Call(target))|;
            && t.R(SP) == Below(s) && t.mem[Below(s)] == next
            && (Harmless(Call(target), s, next) ==> t.pc == TargetOf(target, s, next))
  {
    hide At, Run, Body;
    var call := Call(target);
    SkipIsBody(call, f);
    assert Prologue(Plain(Al), SkipSize(call)) + Body(call, f) == Body(call, f);
    BodyStraight(call, f);
    StraightRuns(code, s.pc, Body(call, f), s);
    k, t := |Body(call, f)|, DoAll(Body(call, f), s);
    CallRuns(target, f, s);
    CallOk(target, f, s);
    CorrectIs(call, f, s);
  }

  // ----- a composite without prologue -----

  /** One guarded word: executed if the condition is met. The condition no still sets marked flags. */
  lemma {:induction false} GuardedRuns(code: seq<Cell>, c: Condition, fl: bool, i: Core, s: State)
    requires At(code, s.pc, Guarded(c, fl, i)) && s.pc + 2 < 0x10000 && Falls(i) && NoPc(i)
    ensures var n, t := |Guarded(c, fl, i)|, s.(flags := Tested(c, s.flags));
            && 1 <= n <= 2
            && Run(code, s, n) == Some(Later(if Met(c, s.flags) then Effect(i, fl, t)
                                             else if c == Plain(No) && fl then t.(flags := Effect(i, true, t).flags)
                                             else t, n))
  {
    hide At, Run, Effect;
    GuardRuns(code, c, fl, i, s);
    TestedHolds(c, s);
    var t := AtGuard(c, s);
    NextIs(t);
    FallingEffect(i, fl, s.(flags := Tested(c, s.flags)), Later(t, 1));
    FallingEffect(i, true, s.(flags := Tested(c, s.flags)), Later(t, 1));
  }

  /** Instructions that do not name R15 do the same at every address. */
  lemma FallingEffect(i: Core, fl: bool, s: State, t: State)
    requires Falls(i) && t == s.(pc := t.pc)
    ensures Effect(i, fl, s).pc == s.pc
    ensures NoPc(i) ==> Effect(i, fl, t) == Effect(i, fl, s).(pc := t.pc)
  {
  }

  lemma NextIs(s: State)
    requires Room(s, 1)
    ensures Next(s) == Later(s, 1)
  {
  }

  predicate NoPc(i: Core) {
    match i
    case OnR0(op) => op.MovLow? || op.MovHigh?
    case MovRR(x, y) => x != PC && y != PC
    case _ => false
  }

  /** The words of `mov R0, imm16`, each by itself. */
  lemma HalfMoved(l: Byte, h: Byte, s: State)
    ensures Effect(OnR0(MovLow(l)), false, s) == s.Set(0, Bytes(High(s.R(0)), l))
    ensures Effect(OnR0(MovHigh(h)), false, s) == s.Set(0, Bytes(h, Low(s.R(0))))
    ensures Effect(MovRR(0, 0), true, s) == s.(flags := MovFlags(s.flags, s.R(0)))
  {
    hide MovFlags;
    assert s.regs[0 := s.regs[0]] == s.regs;
  }

  /** `mov R0, imm16`: R0 gets the value if the condition is met, and only then, with the flags of a move if marked
      fl; under the condition no, fl sets the flags of the old R0. */
  lemma MovR0Ok(code: seq<Cell>, c: Condition, f: Mark, v: Word, s: State) returns (k: nat)
    requires At(code, s.pc, MovR0Imm16(c, f, v)) && s.pc + 6 < 0x10000
    ensures var t := s.(flags := Tested(c, s.flags));
            var u := if Met(c, s.flags) then t.Set(0, v).Flag(f.Fl?, MovFlags(t.flags, v))
                     else if c == Plain(No) then t.Flag(f.Fl?, MovFlags(t.flags, s.R(0)))
                     else t;
            && |MovR0Imm16(c, f, v)| <= 6
            && Run(code, s, k) == Some(Later(u, |MovR0Imm16(c, f, v)|))
  {
    hide At, Run, MovFlags, Guarded, Effect, Bytes, High, Low, Met, Tested;
    var a, b := Guarded(c, false, OnR0(MovLow(Low(v)))), Guarded(c, false, OnR0(MovHigh(High(v))));
    var d := if f.Fl? then Guarded(c, true, MovRR(0, 0)) else [];
    AtSplit(code, s.pc, a, b + d);
    LowRuns(code, c, Low(v), s);
    var t := s.(flags := Tested(c, s.flags));
    TestedHolds(c, s);
    var s1 := Later(if Met(c, s.flags) then t.Set(0, Bytes(High(s.R(0)), Low(v))) else t, |a|);
    AtSplit(code, s1.pc, b, d);
    HighRuns(code, c, High(v), s1);
    LowOf(High(s.R(0)), Low(v));
    Halves(v);
    var s2 := Later(if Met(c, s.flags) then t.Set(0, v) else t, |a| + |b|);
    assert s.regs[0 := Bytes(High(s.R(0)), Low(v))][0 := v] == s.regs[0 := v];
    RunCompose(code, s, |a|, s1, |b|);
    k := |a| + |b|;
    if f.Fl? {
      TestedHolds(c, s2);
      MarkRuns(code, c, s2);
      RunCompose(code, s, k, s2, |d|);
      k := k + |d|;
    }
  }

  lemma {:induction false} LowRuns(code: seq<Cell>, c: Condition, l: Byte, s: State)
    requires At(code, s.pc, Guarded(c, false, OnR0(MovLow(l)))) && s.pc + 2 < 0x10000
    ensures var n, t := |Guarded(c, false, OnR0(MovLow(l)))|, s.(flags := Tested(c, s.flags));
            && 1 <= n <= 2
            && Run(code, s, n) == Some(Later(if Met(c, s.flags) then t.Set(0, Bytes(High(s.R(0)), l)) else t, n))
  {
    hide At, Run, Guarded, Effect, Bytes, High, Met, Tested;
    GuardedRuns(code, c, false, OnR0(MovLow(l)), s);
    HalfMoved(l, 0, s.(flags := Tested(c, s.flags)));
  }

  lemma {:induction false} HighRuns(code: seq<Cell>, c: Condition, h: Byte, s: State)
    requires At(code, s.pc, Guarded(c, false, OnR0(MovHigh(h)))) && s.pc + 2 < 0x10000
    ensures var n, t := |Guarded(c, false, OnR0(MovHigh(h)))|, s.(flags := Tested(c, s.flags));
            && 1 <= n <= 2
            && Run(code, s, n) == Some(Later(if Met(c, s.flags) then t.Set(0, Bytes(h, Low(s.R(0)))) else t, n))
  {
    hide At, Run, Guarded, Effect, Bytes, Low, Met, Tested;
    GuardedRuns(code, c, false, OnR0(MovHigh(h)), s);
    HalfMoved(0, h, s.(flags := Tested(c, s.flags)));
  }

  lemma {:induction false} MarkRuns(code: seq<Cell>, c: Condition, s: State)
    requires At(code, s.pc, Guarded(c, true, MovRR(0, 0))) && s.pc + 2 < 0x10000
    ensures var n, t := |Guarded(c, true, MovRR(0, 0))|, s.(flags := Tested(c, s.flags));
            && 1 <= n <= 2
            && Run(code, s, n) == Some(Later(if Met(c, s.flags) || c == Plain(No)
                                             then t.(flags := MovFlags(t.flags, s.R(0))) else t, n))
  {
    hide At, Run, Guarded, Effect, MovFlags, Met, Tested;
    GuardedRuns(code, c, true, MovRR(0, 0), s);
    HalfMoved(0, 0, s.(flags := Tested(c, s.flags)));
  }
}
