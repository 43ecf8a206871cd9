/** Lowering as it runs: the label array grows, the word counter is bumped in pass 1 and the words and
    lines are appended in pass 2. */
module Bs9Final {
  import opened Options
  import opened Words
  import opened Bs9Isa
  import opened Bs9Ops
  import opened Bs9Gen
  import opened Bs9Lower
  import opened Bs9Layout
  import Asm = Bs9Asm

  const MaxWords: nat := 65536

  type Entries = seq<(string, Word)>

  /** What a lookup in the label array finds: the first entry of a text. */
  ghost function TableOfEntries(es: Entries, naming: Naming): Table {
    if es == [] then imap[]
    else RecordText(TableOfEntries(es[..|es| - 1], naming), es[|es| - 1].0, es[|es| - 1].1, naming)
  }

  lemma {:induction false} TableHolds(es: Entries, k: nat, l: Bs9Ops.Label, naming: Naming)
    requires k < |es| && es[k].0 == naming(l) && forall j :: 0 <= j < k ==> es[j].0 != naming(l)
    ensures l in TableOfEntries(es, naming) && TableOfEntries(es, naming)[l] == es[k].1
    decreases |es|
  {
    var init := es[..|es| - 1];
    if k == |es| - 1 {
      TableMisses(init, l, naming);
    } else {
      TableHolds(init, k, l, naming);
    }
  }

  lemma {:induction false} TableMisses(es: Entries, l: Bs9Ops.Label, naming: Naming)
    requires forall j :: 0 <= j < |es| ==> es[j].0 != naming(l)
    ensures l !in TableOfEntries(es, naming)
    decreases |es|
  {
    if es != [] {
      TableMisses(es[..|es| - 1], l, naming);
    }
  }

  lemma {:induction false} SizePlain(block: seq<Instr>, tab: Table, pos: nat, naming: Naming)
    ensures Record(tab, Plain(block), pos, naming) == tab
    decreases |block|
  {
    if block != [] {
      assert Plain(block)[1..] == Plain(block[1..]);
      SizePlain(block[1..], tab, pos + 1, naming);
    }
  }

  lemma {:induction false} SpillsSize(i: nat, n: nat)
    requires i <= n <= MaxArgs
    ensures |Spills(i, n)| == 8 * (n - i)
    decreases n - i
  {
    if i < n {
      SpillsSize(i + 1, n);
    }
  }

  /** The header of a function: its label and 10 + 8 * params words. */
  function Header(u: Unit): seq<Op>
    requires u.params <= MaxArgs
  {
    [Mark(Func(u.name))] + Plain(Entry(u.locals) + Spills(0, u.params))
  }

  lemma {:induction false} HeaderOk(u: Unit, tab: Table, pos: nat, naming: Naming)
    requires u.params <= MaxArgs
    ensures UnitOps(u) == Header(u) + u.ops && Size(Header(u)) == 10 + 8 * u.params
    ensures Record(tab, Header(u), pos, naming) == RecordOne(tab, Func(u.name), pos, naming)
  {
    var block := Entry(u.locals) + Spills(0, u.params);
    SpillsSize(0, u.params);
    assert |Entry(u.locals)| == 10;
    var head := [Mark(Func(u.name))];
    assert head[1..] == [];
    SizeAppend(head, Plain(block));
    RecordAppend(tab, head, Plain(block), pos, naming);
    SizePlain(block, RecordOne(tab, Func(u.name), pos, naming), pos, naming);
  }

  lemma {:induction false} EmitPlain(block: seq<Instr>, pos: nat, tab: Table, naming: Naming)
    ensures EmitOps(Plain(block), pos, tab, naming) == Some(Printed(block, pos))
    decreases |block|
  {
    hide Text;
    if block != [] {
      var op := Ins(block[0]);
      assert Plain(block) == [op] + Plain(block[1..]);
      assert Plain(block)[1..] == Plain(block[1..]);
      EmitPlain(block[1..], pos + 1, tab, naming);
      assert Expand(op, pos, tab) == [block[0]];
      assert Printed([block[0]], pos) == [Word(block[0], Text(block[0], pos))];
    }
  }

  lemma {:induction false} EmitHeader(u: Unit, pos: nat, tab: Table, naming: Naming)
    requires u.params <= MaxArgs
    ensures EmitOps(Header(u), pos, tab, naming) == Some(HeaderItems(u, pos))
  {
    hide Entry, Spills, Printed, Plain, Text;
    var block := Entry(u.locals) + Spills(0, u.params);
    EmitPlain(block, pos, tab, naming);
    assert Header(u)[0] == Mark(Func(u.name)) && Header(u)[1..] == Plain(block);
  }

  function HeaderItems(u: Unit, pos: nat): seq<Item>
    requires u.params <= MaxArgs
  {
    [Item.Label(Func(u.name))] + Printed(Entry(u.locals) + Spills(0, u.params), pos)
  }

  lemma {:induction false} EmitOne(op: Op, pos: nat, tab: Table, naming: Naming)
    ensures EmitOps([op], pos, tab, naming) ==
            if Lowerable(op, pos, tab) then Some(OpItems(op, pos, tab, naming)) else None
  {
    hide OpItems, Lowerable;
    assert [op][1..] == [];
    assert EmitOps([], pos + OpSize(op), tab, naming) == Some([]);
    if Lowerable(op, pos, tab) {
      assert OpItems(op, pos, tab, naming) + [] == OpItems(op, pos, tab, naming);
    }
  }

  lemma LinesAppend(a: seq<Item>, b: seq<Item>, naming: Naming)
    ensures LinesOf(a + b, naming) == LinesOf(a, naming) + LinesOf(b, naming)
  {
  }

  class Final {
    var labels: Entries
    var nwords: nat
    var words: seq<Instr>
    var lines: seq<Asm.SrcLine>

    /** The texts of labels. */
    const naming: Naming

    constructor (texts: Naming)
      ensures labels == [] && nwords == 0 && words == [] && lines == [] && naming == texts
    {
      labels, nwords, words, lines, naming := [], 0, [], [], texts;
    }

    ghost function Tab(): Table
      reads this`labels
    {
      TableOfEntries(labels, naming)
    }

    /** Index of the first entry of a text, or -1. */
    method FindLabel(name: string) returns (i: int)
      ensures -1 <= i < |labels|
      ensures forall l :: naming(l) == name ==> (l in Tab() <==> i >= 0) && (i >= 0 ==> Tab()[l] == labels[i].1)
    {
      i := 0;
      while i < |labels|
        invariant 0 <= i <= |labels| && forall j :: 0 <= j < i ==> labels[j].0 != name
      {
        if labels[i].0 == name {
          forall l | naming(l) == name
            ensures l in Tab() && Tab()[l] == labels[i].1
          {
            TableHolds(labels, i, l, naming);
          }
          return;
        }
        i := i + 1;
      }
      forall l | naming(l) == name
        ensures l !in Tab()
      {
        TableMisses(labels, l, naming);
      }
      i := -1;
    }

    method AddLabel(name: string, pos: nat)
      modifies this`labels
      ensures Tab() == RecordText(old(Tab()), name, pos % 0x10000, naming)
    {
      labels := labels + [(name, pos % 0x10000)];
      assert labels[..|labels| - 1] == old(labels);
    }

    /** The words and lines so far are those of the operations done so far. */
    ghost predicate Emitted(done: seq<Op>)
      reads this
    {
      var r := EmitOps(done, 0, Tab(), naming);
      && r.Some? && words == CodeOf(r.value) && lines == LinesOf(r.value, naming)
      && nwords == |words| == Size(done) <= MaxWords
    }

    /** Append the words and lines of more operations; no more words than the buffer holds. */
    method Put(items: seq<Item>, ghost done: seq<Op>, ghost more: seq<Op>) returns (ok: bool)
      requires Emitted(done) && EmitOps(more, nwords, Tab(), naming) == Some(items)
      modifies this`nwords, this`words, this`lines
      ensures ok <==> !Fails(done + more, Tab(), naming)
      ensures ok ==> Emitted(done + more)
    {
      hide EmitOps, CodeOf, LinesOf, Size;
      ghost var before := EmitOps(done, 0, Tab(), naming).value;
      EmitAppend(done, more, 0, Tab(), naming);
      SizeAppend(done, more);
      PassesAgree(more, 0, nwords, Tab(), naming);
      CodeAppend(before, items);
      LinesAppend(before, items, naming);
      var block := CodeOf(items);
      ok := nwords + |block| <= MaxWords;
      if ok {
        words, lines, nwords := words + block, lines + LinesOf(items, naming), nwords + |block|;
      }
    }

    /** Lower one operation; the errors are an unknown label, a relative jump out of range, a full buffer. */
    method EmitOp(op: Op, ghost done: seq<Op>) returns (ok: bool)
      requires Emitted(done)
      modifies this`nwords, this`words, this`lines
      ensures ok <==> !Fails(done + [op], Tab(), naming)
      ensures ok ==> Emitted(done + [op])
    {
      hide OpItems, Lowerable;
      EmitAppend(done, [op], 0, Tab(), naming);
      EmitOne(op, nwords, Tab(), naming);
      var target;
      ok, target := CanLower(op);
      if ok {
        var found: Table := if Target(op).Some? then imap[Target(op).value := target] else imap[];
        OnlyTarget(op, nwords, Tab(), found, naming);
        ok := Put(OpItems(op, nwords, found, naming), done, [op]);
      }
    }

    /** Whether the operation can be lowered, and the address of the label it names. */
    method CanLower(op: Op) returns (ok: bool, target: Word)
      ensures ok <==> Lowerable(op, nwords, Tab())
      ensures ok && Target(op).Some? ==> target == Tab()[Target(op).value]
    {
      target := 0;
      if Target(op).Some? {
        var i := FindLabel(naming(Target(op).value));
        if i < 0 {
          return false, 0;
        }
        target := labels[i].1;
        if op.JmpRel? {
          var off := target - (nwords + 1);
          return -128 <= off <= 127, target;
        }
      }
      ok := !op.Comment?;
    }

    /** Pass 1 over one operation, those done before it recorded from a position on. */
    method RecordOp(op: Op, ghost tab: Table, ghost done: seq<Op>, ghost pos: nat)
      requires Tab() == Record(tab, done, pos, naming) && nwords == pos + Size(done)
      modifies this`labels, this`nwords
      ensures Tab() == Record(tab, done + [op], pos, naming) && nwords == pos + Size(done + [op])
    {
      hide RecordOne, RecordText, Record, TableOfEntries, Size, OpSize;
      RecordSnoc(tab, done, op, pos, naming);
      MarkSize(op);
      if op.Mark? {
        RecordIs(Tab(), op.l, nwords, naming);
        AddLabel(naming(op.l), nwords);
      } else {
        nwords := nwords + OpSize(op);
      }
    }

    /** Pass 1 over a list of operations. */
    method RecordOps(ops: seq<Op>)
      modifies this`labels, this`nwords
      ensures Tab() == Record(old(Tab()), ops, old(nwords), naming) && nwords == old(nwords) + Size(ops)
    {
      hide RecordOne, RecordText, Record, TableOfEntries, Size, OpSize;
      ghost var tab, pos := Tab(), nwords;
      NothingRecorded(tab, pos, naming);
      for i := 0 to |ops|
        invariant Tab() == Record(tab, ops[..i], pos, naming) && nwords == pos + Size(ops[..i])
      {
        assert ops[..i + 1] == ops[..i] + [ops[i]];
        RecordOp(ops[i], tab, ops[..i], pos);
      }
      assert ops[..|ops|] == ops;
    }

    /** Pass 1 over one function. */
    method RecordFunction(u: Unit)
      requires u.params <= MaxArgs
      modifies this`labels, this`nwords
      ensures Tab() == Record(old(Tab()), UnitOps(u), old(nwords), naming) && nwords == old(nwords) + Size(UnitOps(u))
    {
      hide RecordOne, RecordText, Record, TableOfEntries, Size, UnitOps, Header, OpSize;
      ghost var tab, pos := Tab(), nwords;
      HeaderOk(u, tab, pos, naming);
      RecordIs(tab, Func(u.name), pos, naming);
      RecordAppend(tab, Header(u), u.ops, pos, naming);
      SizeAppend(Header(u), u.ops);
      AddLabel(naming(Func(u.name)), nwords);
      nwords := nwords + 10 + u.params * 8;
      RecordOps(u.ops);
    }

    /** Pass 2 over one function; not ok if the compiler stops with an error. */
    method EmitFunction(u: Unit, ghost done: seq<Op>) returns (ok: bool)
      requires u.params <= MaxArgs && Emitted(done)
      modifies this`nwords, this`words, this`lines
      ensures ok <==> !Fails(done + UnitOps(u), Tab(), naming)
      ensures ok ==> Emitted(done + UnitOps(u))
    {
      hide Emitted, Fails, UnitOps, Header, HeaderItems, Size;
      HeaderOk(u, Tab(), nwords, naming);
      EmitHeader(u, nwords, Tab(), naming);
      assert done + UnitOps(u) == done + Header(u) + u.ops;
      FailsOn(done + Header(u), u.ops, Tab(), naming);
      ok := Put(HeaderItems(u, nwords), done, Header(u));
      if !ok {
        return;
      }
      ghost var head := done + Header(u);
      assert head + u.ops[..0] == head;
      for i := 0 to |u.ops|
        invariant Emitted(head + u.ops[..i])
      {
        FailsLater(head, u.ops, i, Tab(), naming);
        ok := EmitOp(u.ops[i], head + u.ops[..i]);
        if !ok {
          return;
        }
      }
      assert u.ops[..|u.ops|] == u.ops;
      EmittedIsNoFailure(head + u.ops);
    }

    lemma EmittedIsNoFailure(done: seq<Op>)
      requires Emitted(done)
      ensures !Fails(done, Tab(), naming)
    {
    }

    /** Pass 1 over a program, counting 15 words for the start-up stub. */
    method RecordProgram(us: seq<Unit>, ghost stack: Word)
      requires labels == [] && nwords == 0
      requires forall u :: u in us ==> u.params <= MaxArgs
      modifies this`labels, this`nwords
      ensures Tab() == Record(imap[], ProgramOps(us, stack), 0, naming) && nwords == Size(ProgramOps(us, stack))
    {
      hide UnitOps, StartOps, Size, Record, RecordOne, RecordText, TableOfEntries;
      StubOk(stack, imap[], naming);
      ghost var stub := [Mark(Start)] + StartOps(stack);
      RecordNone(naming);
      RecordIs(Tab(), Start, 0, naming);
      AddLabel(naming(Start), 0);
      nwords := nwords + 15;
      assert stub + AllUnitOps(us[..0]) == stub;
      for i := 0 to |us|
        invariant nwords == Size(stub + AllUnitOps(us[..i]))
        invariant Tab() == Record(imap[], stub + AllUnitOps(us[..i]), 0, naming)
      {
        ghost var before := stub + AllUnitOps(us[..i]);
        UnitsSnoc(us, i);
        assert before + UnitOps(us[i]) == stub + AllUnitOps(us[..i + 1]);
        RecordAppend(imap[], before, UnitOps(us[i]), 0, naming);
        SizeAppend(before, UnitOps(us[i]));
        RecordFunction(us[i]);
      }
      assert us[..|us|] == us;
    }

    /** Pass 2 over a program. */
    method EmitProgram(us: seq<Unit>, stack: Word) returns (ok: bool)
      requires nwords == 0 && words == [] && lines == []
      requires forall u :: u in us ==> u.params <= MaxArgs
      modifies this`nwords, this`words, this`lines
      ensures ok <==> !Fails(ProgramOps(us, stack), Tab(), naming)
      ensures ok ==> Emitted(ProgramOps(us, stack))
    {
      hide Emitted, Fails, UnitOps, StartOps;
      ghost var stub := [Mark(Start)] + StartOps(stack);
      EmptyIsEmitted();
      ok := EmitStub(stack);
      FailsOn(stub, AllUnitOps(us), Tab(), naming);
      if !ok {
        return;
      }
      assert stub + AllUnitOps(us[..0]) == stub;
      for i := 0 to |us|
        invariant Emitted(stub + AllUnitOps(us[..i]))
      {
        ghost var before := stub + AllUnitOps(us[..i]);
        UnitsSnoc(us, i);
        assert before + UnitOps(us[i]) == stub + AllUnitOps(us[..i + 1]);
        ghost var rest := UnitsPrefix(us, i + 1);
        assert stub + AllUnitOps(us) == stub + AllUnitOps(us[..i + 1]) + rest;
        FailsOn(stub + AllUnitOps(us[..i + 1]), rest, Tab(), naming);
        ok := EmitFunction(us[i], before);
        if !ok {
          return;
        }
      }
      assert us[..|us|] == us;
      EmittedIsNoFailure(stub + AllUnitOps(us));
    }

    /** Both passes. The compiler's own check that they agree on the size never fires. */
    method LowerProgram(us: seq<Unit>, stack: Word) returns (ok: bool, mismatch: bool)
      requires labels == [] && nwords == 0 && words == [] && lines == []
      requires forall u :: u in us ==> u.params <= MaxArgs
      modifies this
      ensures Tab() == Record(imap[], ProgramOps(us, stack), 0, naming)
      ensures ok <==> !Fails(ProgramOps(us, stack), Tab(), naming)
      ensures ok ==> Emitted(ProgramOps(us, stack))
      ensures !mismatch
    {
      hide Fails, ProgramOps, Size, EmitOps, CodeOf, LinesOf, Record, TableOfEntries;
      RecordProgram(us, stack);
      var total := nwords;
      nwords := 0;
      ok := EmitProgram(us, stack);
      mismatch := ok && nwords != total;
    }

    lemma EmptyIsEmitted()
      requires words == [] && lines == [] && nwords == 0
      ensures Emitted([])
    {
    }

    /** The start-up stub of pass 2: the stack pointer, the call of main, the halt. */
    method EmitStub(stack: Word) returns (ok: bool)
      requires Emitted([])
      modifies this`nwords, this`words, this`lines
      ensures ok <==> !Fails([Mark(Start)] + StartOps(stack), Tab(), naming)
      ensures ok ==> Emitted([Mark(Start)] + StartOps(stack))
    {
      hide Emitted, Fails, Plain, Const, Size;
      ghost var head, init := [Mark(Start)], Plain(Const(stack) + [CpyRR(SP, 0)]);
      ghost var call, halt := Call(Func("main")), Halt;
      assert head + StartOps(stack) == head + init + [call] + [halt];
      FailsOn(head, init + [call] + [halt], Tab(), naming);
      FailsOn(head + init, [call] + [halt], Tab(), naming);
      FailsOn(head + init + [call], [halt], Tab(), naming);
      assert head + (init + [call] + [halt]) == head + init + [call] + [halt];
      assert head + init + ([call] + [halt]) == head + init + [call] + [halt];
      assert [] + head == head;
      ok := EmitOp(Mark(Start), []);
      if !ok {
        return;
      }
      EmitPlain(Const(stack) + [CpyRR(SP, 0)], nwords, Tab(), naming);
      ok := Put(Printed(Const(stack) + [CpyRR(SP, 0)], nwords), head, init);
      if !ok {
        return;
      }
      ok := EmitOp(Call(Func("main")), head + init);
      if !ok {
        return;
      }
      ok := EmitOp(Halt, head + init + [call]);
    }
  }

  /** The compiler stops with an error. */
  ghost predicate Fails(ops: seq<Op>, tab: Table, naming: Naming) {
    EmitOps(ops, 0, tab, naming).None? || Size(ops) > MaxWords
  }

  lemma FailsOn(ops: seq<Op>, rest: seq<Op>, tab: Table, naming: Naming)
    ensures Fails(ops, tab, naming) ==> Fails(ops + rest, tab, naming)
  {
    EmitAppend(ops, rest, 0, tab, naming);
    SizeAppend(ops, rest);
  }

  lemma FailsLater(head: seq<Op>, ops: seq<Op>, i: nat, tab: Table, naming: Naming)
    requires i < |ops|
    ensures head + ops[..i] + [ops[i]] == head + ops[..i + 1]
    ensures Fails(head + ops[..i] + [ops[i]], tab, naming) ==> Fails(head + ops, tab, naming)
  {
    hide Fails;
    assert head + ops[..i] + [ops[i]] == head + ops[..i + 1];
    assert head + ops[..i + 1] + ops[i + 1..] == head + ops;
    FailsOn(head + ops[..i + 1], ops[i + 1..], tab, naming);
  }

  lemma RecordNone(naming: Naming)
    ensures forall tab: Table :: Record(tab, [], 0, naming) == tab
    ensures TableOfEntries([], naming) == imap[]
  {
  }

  lemma {:induction false} StubOk(stack: Word, tab: Table, naming: Naming)
    ensures Size([Mark(Start)] + StartOps(stack)) == 15
    ensures Record(tab, [Mark(Start)] + StartOps(stack), 0, naming) == RecordOne(tab, Start, 0, naming)
  {
    hide RecordOne, RecordText, Record, Size;
    hide Const;
    var head, block, tail := [Mark(Start)], Const(stack) + [CpyRR(SP, 0)], [Call(Func("main")), Halt];
    RecordSnoc(tab, [], Mark(Start), 0, naming);
    assert [] + head == head;
    RecordAppend(tab, head, StartOps(stack), 0, naming);
    var tab1 := RecordOne(tab, Start, 0, naming);
    RecordAppend(tab1, Plain(block), tail, 0, naming);
    SizePlain(block, tab1, 0, naming);
    RecordSnoc(tab1, [Call(Func("main"))], Halt, 5, naming);
    RecordSnoc(tab1, [], Call(Func("main")), 5, naming);
    NothingRecorded(tab, 0, naming);
    NothingRecorded(tab1, 5, naming);
    assert [] + [Call(Func("main"))] == [Call(Func("main"))];
    assert [Call(Func("main"))] + [Halt] == tail;
    SizeAppend(head, StartOps(stack));
    SizeAppend(Plain(block), tail);
  }

  lemma UnitsSnoc(us: seq<Unit>, k: nat)
    requires k < |us| && forall u :: u in us ==> u.params <= MaxArgs
    ensures AllUnitOps(us[..k + 1]) == AllUnitOps(us[..k]) + UnitOps(us[k])
  {
    assert us[..k + 1][..k] == us[..k];
  }

  lemma UnitsPrefix(us: seq<Unit>, k: nat) returns (rest: seq<Op>)
    requires k <= |us| && forall u :: u in us ==> u.params <= MaxArgs
    ensures AllUnitOps(us) == AllUnitOps(us[..k]) + rest
  {
    hide UnitOps;
    if k == |us| {
      assert us[..k] == us;
      rest := [];
    } else {
      var r := UnitsSplit(us, k);
      rest := UnitOps(us[k]) + r;
    }
  }

  lemma RecordIs(tab: Table, l: Bs9Ops.Label, pos: nat, naming: Naming)
    ensures RecordOne(tab, l, pos, naming) == RecordText(tab, naming(l), pos % 0x10000, naming)
  {
    hide RecordText;
  }

  lemma {:induction false} NothingRecorded(tab: Table, pos: nat, naming: Naming)
    ensures Record(tab, [], pos, naming) == tab && Size([]) == 0
  {
  }

  lemma MarkSize(op: Op)
    ensures op.Mark? ==> OpSize(op) == 0
  {
  }

  /** An operation is lowered with the one label it names. */
  lemma OnlyTarget(op: Op, pos: nat, tab: Table, found: Table, naming: Naming)
    requires Lowerable(op, pos, tab)
    requires Target(op).Some? ==> Target(op).value in found && found[Target(op).value] == tab[Target(op).value]
    ensures Lowerable(op, pos, found) && OpItems(op, pos, found, naming) == OpItems(op, pos, tab, naming)
  {
    hide Printed;
  }

  lemma {:induction false} RecordSnoc(tab: Table, ops: seq<Op>, op: Op, pos: nat, naming: Naming)
    ensures Size(ops + [op]) == Size(ops) + OpSize(op)
    ensures Record(tab, ops + [op], pos, naming) ==
            if op.Mark? then RecordOne(Record(tab, ops, pos, naming), op.l, pos + Size(ops), naming) else Record(tab, ops, pos, naming)
  {
    RecordAppend(tab, ops, [op], pos, naming);
    SizeAppend(ops, [op]);
    assert [op][1..] == [];
  }
}
