/** Label uniqueness and layout: a program that lowers without error lies in its code as the
    correctness proof expects. */
module Bs9Layout {
  import opened Options
  import opened Words
  import opened Bs9Isa
  import opened Bs9Ops
  import opened Bs9Source
  import opened Bs9Gen
  import opened Bs9Lower
  import opened Bs9Correct
  import opened Bs9Program

  // ----- marks -----

  function Marks(ops: seq<Op>): seq<Bs9Ops.Label> {
    if ops == [] then []
    else (if ops[0].Mark? then [ops[0].l] else []) + Marks(ops[1..])
  }

  ghost predicate NoDup(ls: seq<Bs9Ops.Label>) {
    forall i, j :: 0 <= i < j < |ls| ==> ls[i] != ls[j]
  }

  lemma MarksNone()
    ensures Marks([]) == []
  {
  }

  lemma {:induction false} MarksCons(op: Op, ops: seq<Op>)
    ensures Marks([op] + ops) == (if op.Mark? then [op.l] else []) + Marks(ops)
  {
    assert ([op] + ops)[1..] == ops;
  }

  lemma {:induction false} MarksAppend(a: seq<Op>, b: seq<Op>)
    ensures Marks(a + b) == Marks(a) + Marks(b)
  {
    hide Marks;
    if a == [] {
      assert a + b == b;
      MarksNone();
    } else {
      MarksAppend(a[1..], b);
      MarksCons(a[0], a[1..] + b);
      MarksCons(a[0], a[1..]);
      assert a + b == [a[0]] + (a[1..] + b) && a == [a[0]] + a[1..];
    }
  }

  lemma {:induction false} MarksPlain(block: seq<Instr>)
    ensures Marks(Plain(block)) == []
  {
    if block != [] {
      assert Plain(block)[1..] == Plain(block[1..]);
      MarksPlain(block[1..]);
    }
  }

  lemma MarkOne(op: Op)
    ensures Marks([op]) == if op.Mark? then [op.l] else []
  {
    assert [op][1..] == [];
  }

  lemma NoDupAppend(a: seq<Bs9Ops.Label>, b: seq<Bs9Ops.Label>)
    requires NoDup(a) && NoDup(b) && forall x :: x in a ==> x !in b
    ensures NoDup(a + b)
  {
    forall i, j | 0 <= i < j < |a + b|
      ensures (a + b)[i] != (a + b)[j]
    {
      if i < |a| <= j {
        assert a[i] in a && b[j - |a|] in b;
      }
    }
  }

  /** A label generated with a number in a range. */
  predicate Numbered(l: Bs9Ops.Label, lo: nat, hi: nat) {
    match l
    case Else(n) => lo <= n < hi
    case IfEnd(n) => lo <= n < hi
    case Top(n) => lo <= n < hi
    case Wend(n) => lo <= n < hi
    case _ => false
  }

  ghost predicate Within(ls: seq<Bs9Ops.Label>, lo: nat, hi: nat) {
    NoDup(ls) && forall l :: l in ls ==> Numbered(l, lo, hi)
  }

  lemma WithinAppend(a: seq<Bs9Ops.Label>, b: seq<Bs9Ops.Label>, lo: nat, mid: nat, hi: nat)
    requires Within(a, lo, mid) && Within(b, mid, hi) && lo <= mid <= hi
    ensures Within(a + b, lo, hi)
  {
    forall x | x in a
      ensures x !in b
    {
    }
    NoDupAppend(a, b);
  }

  /** One more label, smaller than all the others. */
  lemma WithinCons(l: Bs9Ops.Label, a: seq<Bs9Ops.Label>, lo: nat, mid: nat, hi: nat)
    requires Numbered(l, lo, mid) && Within(a, mid, hi) && mid <= hi
    ensures Within([l] + a, lo, hi) && Within(a + [l], lo, hi)
  {
    NoDupAppend([l], a);
    NoDupAppend(a, [l]);
  }

  lemma {:induction false} MarksExpr(e: Expr<Place>)
    ensures Marks(CompExpr(e)) == []
    decreases e
  {
    hide Push, PopLeft, StoreThroughStack, ReadVar, WriteVar, Const, BinCode, UnaryCode, Pops, Plain;
    match e
    case Num(v) => MarksPlain(Const(v));
    case Var(x) => MarksPlain(ReadVar(x));
    case Load(a) => MarksExpr(a); MarksUnary(LoadOp); MarksAppend(CompExpr(a), UnaryCode(LoadOp));
    case Store(a, v) =>
      MarksExpr(a); MarksExpr(v);
      MarksPair(CompExpr(a), CompExpr(v));
      MarksPlain(StoreThroughStack);
      MarksAppend(CompExpr(a) + Plain(Push) + CompExpr(v), Plain(StoreThroughStack));
    case CallFn(f, args) =>
      MarksArgs(args);
      var pops := Plain(Pops(Capped(Count(args))));
      MarksPlain(Pops(Capped(Count(args))));
      MarksAppend(CompArgs(args), pops);
      MarkOne(Call(Func(f)));
      MarksAppend(CompArgs(args) + pops, [Call(Func(f))]);
    case Pos(e1) => MarksExpr(e1);
    case Paren(e1) => MarksExpr(e1);
    case Neg(e1) => MarksExpr(e1); MarksUnary(NegOp); MarksAppend(CompExpr(e1), UnaryCode(NegOp));
    case Compl(e1) => MarksExpr(e1); MarksUnary(ComplOp); MarksAppend(CompExpr(e1), UnaryCode(ComplOp));
    case Not(e1) => MarksExpr(e1); MarksUnary(NotOp); MarksAppend(CompExpr(e1), UnaryCode(NotOp));
    case Bin(op, l, r) =>
      MarksExpr(l); MarksExpr(r);
      var pair := CompExpr(l) + Plain(Push) + CompExpr(r);
      MarksPair(CompExpr(l), CompExpr(r));
      MarksPlain(PopLeft);
      MarksAppend(pair, Plain(PopLeft));
      MarksBin(op);
      MarksAppend(pair + Plain(PopLeft), BinCode(op));
    case Assign(x, e1) =>
      MarksExpr(e1);
      MarksPlain(WriteVar(x));
      MarksAppend(CompExpr(e1), Plain(WriteVar(x)));
  }

  lemma {:induction false} MarksPair(a: seq<Op>, b: seq<Op>)
    requires Marks(a) == [] && Marks(b) == []
    ensures Marks(a + Plain(Push) + b) == []
  {
    hide Push, Plain;
    MarksPlain(Push);
    MarksAppend(a, Plain(Push));
    MarksAppend(a + Plain(Push), b);
  }

  lemma MarksUnary(op: UnaryOp)
    ensures Marks(UnaryCode(op)) == []
  {
    hide Plain;
    match op
    case LoadOp => MarksPlain([CpyRR(8, 0), CpyRM(0, 8)]);
    case NegOp => MarksPlain(ThroughR2(0, SubRR(0, 2)));
    case ComplOp => MarksPlain(ThroughR2(0xFFFF, XorR0(2)));
    case NotOp => MarkOne(BoolNot);
  }

  lemma MarksBin(op: BinOp)
    ensures Marks(BinCode(op)) == []
  {
    var ops := BinCode(op);
    MarkOne(ops[0]);
    if IsComparison(op) {
      MarkOne(FlagOf(op));
      MarksAppend([Ins(SubRR(0, 2))], [FlagOf(op)]);
    } else {
      assert ops == [ops[0]];
    }
  }

  lemma {:induction false} MarksArgs(args: Exprs<Place>)
    ensures Marks(CompArgs(args)) == []
    decreases args
  {
    hide Push, Plain;
    match args
    case NoArgs =>
    case Arg(e, rest) =>
      MarksExpr(e);
      MarksArgs(rest);
      MarksPair(CompExpr(e), CompArgs(rest));
  }

  lemma {:induction false} MarksStmt(s: Stmt<Place>, fn: string, n: nat)
    ensures Within(Marks(CompStmt(s, fn, n)), n, n + LabelCount(s))
    decreases s, 1
  {
    hide Marks, CompExpr, Plain, Within, WriteVar;
    WithinNone(n);
    MarksNone();
    match s
    case Return(e) => MarksExpr(e); MarkOne(Jabs(End(fn))); MarksAppend(CompExpr(e), [Jabs(End(fn))]);
    case If(e, thn) => MarksIf(e, thn, fn, n);
    case IfElse(e, thn, els) => MarksIfElse(e, thn, els, fn, n);
    case While(e, body) => MarksWhile(e, body, fn, n);
    case Block(ss) => MarksStmts(ss, fn, n);
    case Do(e) => MarksExpr(e);
    case Empty => MarkOne(Nop);
    case Decl(_) =>
    case DeclInit(x, e) =>
      MarksExpr(e);
      MarksPlain(WriteVar(x));
      MarksAppend(CompExpr(e), Plain(WriteVar(x)));
  }

  lemma WithinNone(n: nat)
    ensures Within([], n, n)
  {
  }

  lemma {:induction false} MarksHead(e: Expr<Place>, j: Op)
    requires !j.Mark?
    ensures Marks(CompExpr(e) + [j]) == []
  {
    MarksExpr(e);
    MarkOne(j);
    MarksAppend(CompExpr(e), [j]);
  }

  lemma {:induction false} MarksIf(e: Expr<Place>, thn: Stmt<Place>, fn: string, n: nat)
    ensures Within(Marks(CompStmt(If(e, thn), fn, n)), n, n + 2 + LabelCount(thn))
    decreases If(e, thn), 0
  {
    hide Marks, CompExpr, Within;
    var head, a := CompExpr(e) + [JabsIfZero(Else(n))], CompStmt(thn, fn, n + 2);
    MarksHead(e, JabsIfZero(Else(n)));
    MarksStmt(thn, fn, n + 2);
    MarksThree(head, a, Else(n));
    WithinCons(Else(n), Marks(a), n, n + 2, n + 2 + LabelCount(thn));
  }

  lemma {:induction false} MarksThree(head: seq<Op>, a: seq<Op>, m: Bs9Ops.Label)
    requires Marks(head) == []
    ensures Marks(head + a + [Mark(m)]) == Marks(a) + [m]
  {
    hide Marks;
    MarksAppend(head, a);
    MarkOne(Mark(m));
    MarksAppend(head + a, [Mark(m)]);
  }

  lemma {:induction false} MarksIfElse(e: Expr<Place>, thn: Stmt<Place>, els: Stmt<Place>, fn: string, n: nat)
    ensures Within(Marks(CompStmt(IfElse(e, thn, els), fn, n)), n, n + 2 + LabelCount(thn) + LabelCount(els))
    decreases IfElse(e, thn, els), 0
  {
    hide Marks, CompExpr;
    var m := n + 2 + LabelCount(thn);
    var hi := m + LabelCount(els);
    var head, a, b := CompExpr(e) + [JabsIfZero(Else(n))], CompStmt(thn, fn, n + 2), CompStmt(els, fn, m);
    MarksHead(e, JabsIfZero(Else(n)));
    MarksStmt(thn, fn, n + 2);
    MarksStmt(els, fn, m);
    MarksSix(head, a, Jabs(IfEnd(n + 1)), Else(n), b, IfEnd(n + 1));
    SixWithin(Marks(a), Else(n), Marks(b), IfEnd(n + 1), n, m, hi);
  }

  lemma {:induction false} MarksSix(head: seq<Op>, a: seq<Op>, j: Op, m: Bs9Ops.Label, b: seq<Op>, z: Bs9Ops.Label)
    requires Marks(head) == [] && !j.Mark?
    ensures Marks(head + a + [j] + [Mark(m)] + b + [Mark(z)]) == Marks(a) + [m] + Marks(b) + [z]
  {
    hide Marks;
    MarksAppend(head, a);
    MarkOne(j);
    MarksAppend(head + a, [j]);
    MarkOne(Mark(m));
    MarksAppend(head + a + [j], [Mark(m)]);
    MarksAppend(head + a + [j] + [Mark(m)], b);
    MarkOne(Mark(z));
    MarksAppend(head + a + [j] + [Mark(m)] + b, [Mark(z)]);
  }

  lemma SixWithin(a: seq<Bs9Ops.Label>, m: Bs9Ops.Label, b: seq<Bs9Ops.Label>, z: Bs9Ops.Label, n: nat, mid: nat, hi: nat)
    requires n + 2 <= mid <= hi && m == Else(n) && z == IfEnd(n + 1)
    requires Within(a, n + 2, mid) && Within(b, mid, hi)
    ensures Within(a + [m] + b + [z], n, hi)
  {
    WithinCons(m, a, n, n + 2, mid);
    WithinAppend(a + [m], b, n, mid, hi);
    NoDupAppend(a + [m] + b, [z]);
  }

  lemma {:induction false} MarksWhile(e: Expr<Place>, body: Stmt<Place>, fn: string, n: nat)
    ensures Within(Marks(CompStmt(While(e, body), fn, n)), n, n + 2 + LabelCount(body))
    decreases While(e, body), 0
  {
    hide Marks, CompExpr;
    var hi := n + 2 + LabelCount(body);
    var top, head, a := [Mark(Top(n))], CompExpr(e) + [JabsIfZero(Wend(n + 1))], CompStmt(body, fn, n + 2);
    var back, end := [Jabs(Top(n))], [Mark(Wend(n + 1))];
    MarksHead(e, JabsIfZero(Wend(n + 1)));
    MarksStmt(body, fn, n + 2);
    MarkOne(Mark(Top(n)));
    MarkOne(Jabs(Top(n)));
    MarkOne(Mark(Wend(n + 1)));
    MarksAppend(top, head);
    MarksAppend(top + head, a);
    MarksAppend(top + head + a, back);
    MarksAppend(top + head + a + back, end);
    WithinCons(Wend(n + 1), Marks(a), n + 1, n + 2, hi);
    WithinCons(Top(n), Marks(a) + [Wend(n + 1)], n, n + 1, hi);
    assert Marks(top + head + a + back + end) == [Top(n)] + (Marks(a) + [Wend(n + 1)]);
  }

  lemma {:induction false} MarksStmts(ss: Stmts<Place>, fn: string, n: nat)
    ensures Within(Marks(CompStmts(ss, fn, n)), n, n + LabelCounts(ss))
    decreases ss
  {
    hide Within, CompStmt;
    match ss
    case Nil => WithinNone(n);
    case Cons(s, rest) =>
      var m := n + LabelCount(s);
      MarksStmt(s, fn, n);
      MarksStmts(rest, fn, m);
      MarksAppend(CompStmt(s, fn, n), CompStmts(rest, fn, m));
      WithinAppend(Marks(CompStmt(s, fn, n)), Marks(CompStmts(rest, fn, m)), n, m, m + LabelCounts(rest));
  }

  // ----- a segment of a program lies in the code where pass 1 recorded it -----

  lemma {:induction false} RecordAppend(tab: Table, a: seq<Op>, b: seq<Op>, pos: nat, naming: Naming)
    ensures Record(tab, a + b, pos, naming) == Record(Record(tab, a, pos, naming), b, pos + Size(a), naming)
    decreases |a|
  {
    hide RecordOne, OpSize;
    if a == [] {
      assert a + b == b;
    } else {
      assert (a + b)[0] == a[0] && (a + b)[1..] == a[1..] + b;
      var tab' := if a[0].Mark? then RecordOne(tab, a[0].l, pos, naming) else tab;
      RecordAppend(tab', a[1..], b, pos + OpSize(a[0]), naming);
    }
  }

  /** A mark of the label's text. */
  ghost predicate Texted(l: Bs9Ops.Label, ls: seq<Bs9Ops.Label>, naming: Naming) {
    exists m :: m in ls && naming(m) == naming(l)
  }

  /** No two of the labels have one text. */
  ghost predicate Distinct(ls: seq<Bs9Ops.Label>, naming: Naming) {
    forall l, m :: l in ls && m in ls && naming(l) == naming(m) ==> l == m
  }

  /** The table only grows, never rebinds, and gains exactly the labels with the text of a mark. */
  lemma {:induction false} RecordGrows(tab: Table, ops: seq<Op>, pos: nat, naming: Naming)
    ensures forall l :: l in Record(tab, ops, pos, naming) <==> l in tab || Texted(l, Marks(ops), naming)
    ensures forall l :: l in tab ==> Record(tab, ops, pos, naming)[l] == tab[l]
    decreases |ops|
  {
    if ops != [] {
      var tab' := if ops[0].Mark? then RecordOne(tab, ops[0].l, pos, naming) else tab;
      RecordGrows(tab', ops[1..], pos + OpSize(ops[0]), naming);
    }
  }

  /** At the first label of a text pass 2 has emitted as many words as pass 1 recorded for it. */
  lemma {:induction false} RecordedIsEmitted(ops: seq<Op>, k: nat, naming: Naming)
    requires k < |ops| && ops[k].Mark? && !Texted(ops[k].l, Marks(ops[..k]), naming)
    requires EmitOps(ops, 0, Record(imap[], ops, 0, naming), naming).Some?
    ensures var tab, l := Record(imap[], ops, 0, naming), ops[k].l;
            var before := EmitOps(ops[..k], 0, tab, naming);
            && before.Some? && before.value <= EmitOps(ops, 0, tab, naming).value
            && l in tab && tab[l] == |CodeOf(before.value)| % 0x10000
  {
    hide EmitOps, CodeOf, Record, Marks, Size, Texted, RecordOne;
    var tab, before := Record(imap[], ops, 0, naming), ops[..k];
    var l, pos, rest := ops[k].l, Size(before), ops[k + 1..];
    assert before + [ops[k]] + rest == ops && before + ([ops[k]] + rest) == ops;
    RecordAppend(imap[], before, [ops[k]] + rest, 0, naming);
    RecordGrows(imap[], before, 0, naming);
    var tab0 := Record(imap[], before, 0, naming);
    RecordMark(tab0, ops[k], rest, pos, naming);
    RecordedHere(tab0, l, pos, naming);
    RecordGrows(RecordOne(tab0, l, pos, naming), rest, pos, naming);
    PassesAgree(ops, k, 0, tab, naming);
  }

  lemma {:induction false} RecordMark(tab: Table, op: Op, rest: seq<Op>, pos: nat, naming: Naming)
    requires op.Mark?
    ensures Record(tab, [op] + rest, pos, naming) == Record(RecordOne(tab, op.l, pos, naming), rest, pos, naming)
  {
    hide RecordOne;
    assert ([op] + rest)[1..] == rest;
  }

  lemma RecordedHere(tab: Table, l: Bs9Ops.Label, pos: nat, naming: Naming)
    requires l !in tab
    ensures l in RecordOne(tab, l, pos, naming) && RecordOne(tab, l, pos, naming)[l] == pos % 0x10000
  {
  }

  ghost predicate Placed(ops: seq<Op>, pos: nat, tab: Table)
    decreases |ops|
  {
    ops == [] ||
    ((ops[0].Mark? ==> ops[0].l in tab && tab[ops[0].l] == pos % 0x10000)
     && Placed(ops[1..], pos + OpSize(ops[0]), tab))
  }

  lemma {:induction false} RecordPlaces(tab: Table, ops: seq<Op>, pos: nat, naming: Naming)
    requires NoDup(Marks(ops)) && Distinct(Marks(ops), naming) && forall l :: l in Marks(ops) ==> l !in tab
    ensures Placed(ops, pos, Record(tab, ops, pos, naming))
    decreases |ops|
  {
    hide Texted, Distinct;
    if ops != [] {
      var rest := ops[1..];
      if ops[0].Mark? {
        var l := ops[0].l;
        assert Marks(ops) == [l] + Marks(rest);
        assert Marks(ops)[0] == l;
        NoDupTail(l, Marks(rest));
        DistinctTail(tab, l, Marks(rest), pos, naming);
        RecordPlaces(RecordOne(tab, l, pos, naming), rest, pos, naming);
        RecordGrows(RecordOne(tab, l, pos, naming), rest, pos, naming);
      } else {
        assert Marks(ops) == Marks(rest);
        RecordPlaces(tab, rest, pos + OpSize(ops[0]), naming);
      }
    }
  }

  lemma DistinctTail(tab: Table, l: Bs9Ops.Label, ls: seq<Bs9Ops.Label>, pos: nat, naming: Naming)
    requires Distinct([l] + ls, naming) && l !in ls && forall x :: x in [l] + ls ==> x !in tab
    ensures Distinct(ls, naming) && forall x :: x in ls ==> x !in RecordOne(tab, l, pos, naming)
    ensures l in RecordOne(tab, l, pos, naming) && RecordOne(tab, l, pos, naming)[l] == pos % 0x10000
  {
    assert l in [l] + ls;
    assert forall x :: x in ls ==> x in [l] + ls;
  }

  lemma DistinctParts(a: seq<Bs9Ops.Label>, b: seq<Bs9Ops.Label>, c: seq<Bs9Ops.Label>, naming: Naming)
    requires Distinct(a + b + c, naming)
    ensures Distinct(a + b, naming) && Distinct(b, naming)
  {
    assert forall x :: x in a + b || x in b ==> x in a + b + c;
  }

  /** New labels are not in the table of other texts. */
  lemma NewTexts(a: seq<Bs9Ops.Label>, m: seq<Bs9Ops.Label>, naming: Naming)
    requires Distinct(a + m, naming) && forall l :: l in m ==> l !in a
    ensures forall l :: l in m ==> !Texted(l, a, naming)
  {
    assert forall x :: x in a || x in m ==> x in a + m;
  }

  lemma NoDupTail(l: Bs9Ops.Label, ls: seq<Bs9Ops.Label>)
    requires NoDup([l] + ls)
    ensures NoDup(ls) && l !in ls && forall x :: x in ls ==> x in [l] + ls
  {
    var all := [l] + ls;
    assert all[1..] == ls;
    forall i, j | 0 <= i < j < |ls|
      ensures ls[i] != ls[j]
    {
      assert all[i + 1] == ls[i] && all[j + 1] == ls[j];
    }
    forall i | 0 <= i < |ls|
      ensures ls[i] != l
    {
      assert all[0] == l && all[i + 1] == ls[i];
    }
  }

  lemma {:induction false} PlacedKept(ops: seq<Op>, pos: nat, tab: Table, tab': Table)
    requires Placed(ops, pos, tab) && forall l :: l in tab ==> l in tab' && tab'[l] == tab[l]
    ensures Placed(ops, pos, tab')
    decreases |ops|
  {
    if ops != [] {
      PlacedKept(ops[1..], pos + OpSize(ops[0]), tab, tab');
    }
  }

  /** Pass 2 over a list is pass 2 over its parts; it stops if either does. */
  lemma {:induction false} EmitAppend(a: seq<Op>, b: seq<Op>, pos: nat, tab: Table, naming: Naming)
    ensures var x, y := EmitOps(a, pos, tab, naming), EmitOps(b, pos + Size(a), tab, naming);
            EmitOps(a + b, pos, tab, naming) ==
              if x.Some? && y.Some? then Some(x.value + y.value) else None
    decreases |a|
  {
    hide OpItems, Lowerable;
    if a == [] {
      assert a + b == b;
      var y := EmitOps(b, pos, tab, naming);
      assert y.Some? ==> [] + y.value == y.value;
    } else {
      assert (a + b)[1..] == a[1..] + b;
      var pos' := pos + OpSize(a[0]);
      EmitAppend(a[1..], b, pos', tab, naming);
      var x, y := EmitOps(a[1..], pos', tab, naming), EmitOps(b, pos + Size(a), tab, naming);
      if Lowerable(a[0], pos, tab) && x.Some? && y.Some? {
        var items := OpItems(a[0], pos, tab, naming);
        assert items + (x.value + y.value) == items + x.value + y.value;
      }
    }
  }

  lemma {:induction false} EmitIsCode(ops: seq<Op>, pos: nat, tab: Table, naming: Naming, code: seq<Instr>)
    requires EmitOps(ops, pos, tab, naming).Some? && Placed(ops, pos, tab)
    requires At(code, pos, CodeOf(EmitOps(ops, pos, tab, naming).value)) && |code| < 0x10000
    ensures CodeAt(code, pos, ops, tab)
    decreases |ops|
  {
    hide At, OpItems, Expand;
    if ops == [] {
      AtFits(code, pos, []);
    } else {
      var items := OpItems(ops[0], pos, tab, naming);
      var pos' := pos + OpSize(ops[0]);
      var rest := EmitOps(ops[1..], pos', tab, naming).value;
      CodeOfOp(ops[0], pos, tab, naming);
      ExpandSize(ops[0], pos, tab);
      CodeAppend(items, rest);
      AtSlice(code, pos, CodeOf(items), CodeOf(rest));
      AtFits(code, pos, CodeOf(items));
      EmitIsCode(ops[1..], pos', tab, naming, code);
    }
  }

  /** Pass 1 records the new labels of a segment at their places, whatever follows. */
  lemma {:induction false} SegmentPlaced(a: seq<Op>, m: seq<Op>, b: seq<Op>, naming: Naming)
    requires NoDup(Marks(m)) && forall l :: l in Marks(m) ==> l !in Marks(a)
    requires Distinct(Marks(a + m), naming)
    ensures Placed(m, Size(a), Record(imap[], a + m + b, 0, naming))
  {
    hide Marks, Record, Placed, NoDup, Size, Distinct, Texted;
    RecordAppend(imap[], a + m, b, 0, naming);
    RecordAppend(imap[], a, m, 0, naming);
    MarksAppend(a, m);
    NewTexts(Marks(a), Marks(m), naming);
    assert Marks(a) + Marks(m) + [] == Marks(a) + Marks(m);
    DistinctParts(Marks(a), Marks(m), [], naming);
    var ta := Record(imap[], a, 0, naming);
    var tm := Record(ta, m, Size(a), naming);
    SizeAppend(a, m);
    RecordGrows(imap[], a, 0, naming);
    RecordPlaces(ta, m, Size(a), naming);
    RecordGrows(tm, b, Size(a) + Size(m), naming);
    PlacedKept(m, Size(a), tm, Record(imap[], a + m + b, 0, naming));
  }

  /** Whatever follows it, a segment whose labels are new lies in the code at its place. */
  lemma {:induction false} SegmentOk(a: seq<Op>, m: seq<Op>, b: seq<Op>, naming: Naming, tab: Table, code: seq<Instr>)
    requires tab == Record(imap[], a + m + b, 0, naming) && EmitOps(a + m + b, 0, tab, naming).Some?
    requires code == CodeOf(EmitOps(a + m + b, 0, tab, naming).value) && |code| < 0x10000
    requires NoDup(Marks(m)) && forall l :: l in Marks(m) ==> l !in Marks(a)
    requires Distinct(Marks(a + m), naming)
    ensures CodeAt(code, Size(a), m, tab)
  {
    hide Marks, Record, EmitOps, CodeOf, Placed, CodeAt, At, NoDup, Size, Distinct;
    SegmentPlaced(a, m, b, naming);
    SizeAppend(a, m);
    EmitAppend(a + m, b, 0, tab, naming);
    EmitAppend(a, m, 0, tab, naming);
    var xa, xm := EmitOps(a, 0, tab, naming).value, EmitOps(m, Size(a), tab, naming).value;
    var xb := EmitOps(b, Size(a) + Size(m), tab, naming).value;
    CodeAppend(xa + xm, xb);
    CodeAppend(xa, xm);
    PassesAgree(a, 0, 0, tab, naming);
    AtMiddle(CodeOf(xa), CodeOf(xm), CodeOf(xb));
    EmitIsCode(m, Size(a), tab, naming, code);
  }

  lemma AtMiddle(a: seq<Instr>, m: seq<Instr>, b: seq<Instr>)
    ensures At(a + m + b, |a|, m)
  {
  }

  // ----- whole programs -----

  /** Label numbers the functions before one use up. */
  function Labels(funcs: seq<Function>): nat {
    if funcs == [] then 0 else Labels(funcs[..|funcs| - 1]) + LabelCounts(funcs[|funcs| - 1].body)
  }

  function UnitOf(f: Function, n: nat): Unit { Unit(f.name, f.params, f.locals, BodyOps(f, n)) }

  function UnitsOf(funcs: seq<Function>): seq<Unit> {
    seq(|funcs|, k requires 0 <= k < |funcs| => UnitOf(funcs[k], Labels(funcs[..k])))
  }

  lemma UnitsFew(funcs: seq<Function>)
    requires FewParams(funcs)
    ensures |UnitsOf(funcs)| == |funcs| && forall u :: u in UnitsOf(funcs) ==> u.params <= MaxArgs
  {
  }

  predicate FewParams(funcs: seq<Function>) { forall f :: f in funcs ==> f.params <= MaxArgs }

  function CompProgram(funcs: seq<Function>, top: Word): seq<Op>
    requires FewParams(funcs)
  {
    ProgramOps(UnitsOf(funcs), top)
  }

  lemma MarksFunc(f: Function, n: nat)
    requires f.params <= MaxArgs
    ensures NoDup(Marks(FuncOps(f, n)))
    ensures forall l :: l in Marks(FuncOps(f, n)) ==>
              l == Func(f.name) || l == End(f.name) || Numbered(l, n, n + LabelCounts(f.body))
  {
    hide Marks, Prologue, CompStmts;
    var head, prol, body, tail := [Mark(Func(f.name))], Plain(Prologue(f)), CompStmts(f.body, f.name, n),
                                  [Mark(End(f.name)), Ret];
    MarkOne(Mark(Func(f.name)));
    MarksPlain(Prologue(f));
    MarksStmts(f.body, f.name, n);
    MarkOne(Mark(End(f.name)));
    MarkOne(Ret);
    assert tail == [Mark(End(f.name))] + [Ret];
    MarksAppend([Mark(End(f.name))], [Ret]);
    MarksAppend(head, prol);
    MarksAppend(body, tail);
    MarksAppend(head + prol, body + tail);
    NoDupAppend(Marks(body), [End(f.name)]);
    NoDupAppend([Func(f.name)], Marks(body) + [End(f.name)]);
    assert Marks(FuncOps(f, n)) == [Func(f.name)] + (Marks(body) + [End(f.name)]);
  }

  /** A label of one of the first k functions. */
  ghost predicate Earlier(l: Bs9Ops.Label, funcs: seq<Function>, k: nat)
    requires k <= |funcs|
  {
    || Numbered(l, 0, Labels(funcs[..k]))
    || exists i :: 0 <= i < k && (l == Func(funcs[i].name) || l == End(funcs[i].name))
  }

  lemma EarlierStep(l: Bs9Ops.Label, funcs: seq<Function>, k: nat)
    requires k < |funcs|
    requires var f, n := funcs[k], Labels(funcs[..k]);
             || Earlier(l, funcs, k) || l == Func(f.name) || l == End(f.name)
             || Numbered(l, n, n + LabelCounts(f.body))
    ensures Earlier(l, funcs, k + 1)
  {
    assert funcs[..k + 1][..k] == funcs[..k] && funcs[..k + 1][k] == funcs[k];
  }

  lemma {:induction false} MarksUnits(funcs: seq<Function>, k: nat)
    requires FewParams(funcs) && k <= |funcs|
    ensures forall l :: l in Marks(AllUnitOps(UnitsOf(funcs)[..k])) ==> Earlier(l, funcs, k)
  {
    hide Marks, UnitOps, UnitOf, FuncOps, Earlier, Labels, LabelCounts, Numbered, NoDup, UnitsOf;
    var us := UnitsOf(funcs);
    UnitsFew(funcs);
    if k == 0 {
      MarksNone();
    } else {
      MarksUnits(funcs, k - 1);
      var f, n := funcs[k - 1], Labels(funcs[..k - 1]);
      UnitIsFunc(funcs, k - 1);
      assert us[..k][..k - 1] == us[..k - 1] && us[..k][k - 1] == us[k - 1];
      assert funcs[..k][..k - 1] == funcs[..k - 1];
      MarksFunc(f, n);
      MarksAppend(AllUnitOps(us[..k - 1]), UnitOps(us[k - 1]));
      forall l | l in Marks(AllUnitOps(us[..k]))
        ensures Earlier(l, funcs, k)
      {
        EarlierStep(l, funcs, k - 1);
      }
    }
  }

  lemma UnitIsFunc(funcs: seq<Function>, k: nat)
    requires FewParams(funcs) && k < |funcs|
    ensures UnitOps(UnitsOf(funcs)[k]) == FuncOps(funcs[k], Labels(funcs[..k]))
  {
  }

  lemma {:induction false} UnitsSplit(us: seq<Unit>, k: nat) returns (rest: seq<Op>)
    requires k < |us| && forall u :: u in us ==> u.params <= MaxArgs
    ensures AllUnitOps(us) == AllUnitOps(us[..k]) + UnitOps(us[k]) + rest
    decreases |us|
  {
    hide UnitOps;
    var last := |us| - 1;
    if k == last {
      rest := [];
    } else {
      var us' := us[..last];
      assert us'[..k] == us[..k];
      var r := UnitsSplit(us', k);
      rest := r + UnitOps(us[last]);
    }
  }

  /** Pass 1 over a whole program. */
  ghost function TableOf(funcs: seq<Function>, top: Word, naming: Naming): Table
    requires FewParams(funcs)
  {
    Record(imap[], CompProgram(funcs, top), 0, naming)
  }

  /** Pass 2 over a whole program. */
  ghost function ItemsOf(funcs: seq<Function>, top: Word, naming: Naming): Option<seq<Item>>
    requires FewParams(funcs)
  {
    EmitOps(CompProgram(funcs, top), 0, TableOf(funcs, top, naming), naming)
  }

  /** The addresses the calls of each function deliver once it has executed a `return`. */
  ghost function EndsOf(tab: Table, names: set<string>): map<string, Word>
    requires forall name :: name in names ==> End(name) in tab
  {
    map name | name in names :: tab[End(name)]
  }

  lemma StubPlaced(funcs: seq<Function>, top: Word, naming: Naming)
    requires FewParams(funcs) && ItemsOf(funcs, top, naming).Some?
    requires |CodeOf(ItemsOf(funcs, top, naming).value)| < 0x10000
    ensures CodeAt(CodeOf(ItemsOf(funcs, top, naming).value), 0, StartOps(top), TableOf(funcs, top, naming))
  {
    hide StartOps, AllUnitOps, UnitsOf, EmitOps, Record, CodeAt, Marks;
    UnitsFew(funcs);
    var rest := AllUnitOps(UnitsOf(funcs));
    MarksStub(top);
    assert CompProgram(funcs, top) == [Mark(Start)] + StartOps(top) + rest;
    SegmentOk([Mark(Start)], StartOps(top), rest, naming, TableOf(funcs, top, naming),
              CodeOf(ItemsOf(funcs, top, naming).value));
    assert Size([Mark(Start)]) == 0 by { assert [Mark(Start)][1..] == []; }
  }

  lemma MarksStub(top: Word)
    ensures Marks([Mark(Start)]) == [Start] && Marks(StartOps(top)) == []
    ensures Marks([Mark(Start)] + StartOps(top)) == [Start]
  {
    hide Marks, Plain, Const;
    var init, tail := Const(top) + [CpyRR(SP, 0)], [Call(Func("main")), Halt];
    MarkOne(Mark(Start));
    MarksPlain(init);
    MarkOne(Call(Func("main")));
    MarkOne(Halt);
    assert tail == [Call(Func("main"))] + [Halt];
    MarksAppend([Call(Func("main"))], [Halt]);
    MarksAppend(Plain(init), tail);
    MarksAppend([Mark(Start)], StartOps(top));
  }

  predicate FirstOfName(funcs: seq<Function>, k: nat) {
    k < |funcs| && forall i :: 0 <= i < k ==> funcs[i].name != funcs[k].name
  }

  lemma FunctionPlaced(funcs: seq<Function>, k: nat, top: Word, naming: Naming)
    requires FewParams(funcs) && FirstOfName(funcs, k) && ItemsOf(funcs, top, naming).Some?
    requires |CodeOf(ItemsOf(funcs, top, naming).value)| < 0x10000 && Distinct(Marks(CompProgram(funcs, top)), naming)
    ensures Compiled(CodeOf(ItemsOf(funcs, top, naming).value), TableOf(funcs, top, naming), funcs[k])
  {
    hide StartOps, UnitsOf, EmitOps, Record, CodeAt, Marks, UnitOps, AllUnitOps, CompStmts, Size, Prologue, NoDup, Distinct;
    var us := UnitsOf(funcs);
    var code, tab := CodeOf(ItemsOf(funcs, top, naming).value), TableOf(funcs, top, naming);
    var f, n := funcs[k], Labels(funcs[..k]);
    UnitsFew(funcs);
    var rest := UnitsSplit(us, k);
    UnitIsFunc(funcs, k);
    var before := [Mark(Start)] + StartOps(top) + AllUnitOps(us[..k]);
    assert CompProgram(funcs, top) == before + FuncOps(f, n) + rest;
    MarksStub(top);
    MarksUnits(funcs, k);
    MarksFunc(f, n);
    MarksAppend([Mark(Start)] + StartOps(top), AllUnitOps(us[..k]));
    NewLabels(funcs, k, Marks(AllUnitOps(us[..k])), Marks(FuncOps(f, n)));
    MarksAppend(before, FuncOps(f, n));
    MarksAppend(before + FuncOps(f, n), rest);
    DistinctParts(Marks(before), Marks(FuncOps(f, n)), Marks(rest), naming);
    SegmentOk(before, FuncOps(f, n), rest, naming, tab, code);
    FuncLabels(code, Size(before), f, n, tab);
  }

  lemma NewLabels(funcs: seq<Function>, k: nat, before: seq<Bs9Ops.Label>, here: seq<Bs9Ops.Label>)
    requires FirstOfName(funcs, k)
    requires forall l :: l in before ==> Earlier(l, funcs, k)
    requires var f, n := funcs[k], Labels(funcs[..k]);
             forall l :: l in here ==>
               l == Func(f.name) || l == End(f.name) || Numbered(l, n, n + LabelCounts(f.body))
    ensures forall l :: l in here ==> l !in [Start] + before
  {
  }

  lemma {:induction false} FuncLabels(code: seq<Instr>, pos: nat, f: Function, n: nat, tab: Table)
    requires f.params <= MaxArgs && CodeAt(code, pos, FuncOps(f, n), tab)
    ensures Func(f.name) in tab && tab[Func(f.name)] == pos && End(f.name) in tab
  {
    hide CodeAt, Prologue, CompStmts;
    var head, prol, body, tail := [Mark(Func(f.name))], Plain(Prologue(f)), CompStmts(f.body, f.name, n),
                                  [Mark(End(f.name)), Ret];
    Split(code, pos, head + prol, body + tail, tab);
    Split(code, pos, head, prol, tab);
    One(code, pos, Mark(Func(f.name)), tab);
    Split(code, pos + Size(head + prol), body, tail, tab);
    assert tail == [Mark(End(f.name))] + [Ret];
    Split(code, pos + Size(head + prol) + Size(body), [Mark(End(f.name))], [Ret], tab);
    One(code, pos + Size(head + prol) + Size(body), Mark(End(f.name)), tab);
  }

  lemma {:induction false} FindFirst(funcs: seq<Function>, name: string) returns (k: nat)
    requires FindIn(funcs, name).Some?
    ensures FirstOfName(funcs, k) && funcs[k].name == name && FindIn(funcs, name) == Some(funcs[k])
    decreases |funcs|
  {
    if funcs[0].name == name {
      k := 0;
    } else {
      var j := FindFirst(funcs[1..], name);
      k := j + 1;
      forall i | 0 <= i < k
        ensures funcs[i].name != name
      {
        assert i > 0 ==> funcs[1..][i - 1].name != funcs[1..][j].name;
      }
    }
  }

  predicate WellFormed(funcs: seq<Function>) { forall f :: f in funcs ==> FitsFunction(f) }

  ghost predicate Defined(funcs: seq<Function>, tab: Table) {
    forall f :: f in funcs ==> End(f.name) in tab
  }

  ghost function CfgOf(funcs: seq<Function>, code: seq<Instr>, tab: Table, lo: nat, top: nat): Cfg
    requires Defined(funcs, tab)
  {
    var names := set f | f in funcs :: f.name;
    Cfg(funcs, |code|, lo, top, Emitted(EndsOf(tab, names)))
  }

  /** The labels of all functions are in the table, also when a name is defined twice. */
  lemma AllDefined(funcs: seq<Function>, top: Word, naming: Naming)
    requires FewParams(funcs) && ItemsOf(funcs, top, naming).Some?
    requires |CodeOf(ItemsOf(funcs, top, naming).value)| < 0x10000
    requires Distinct(Marks(CompProgram(funcs, top)), naming)
    ensures Defined(funcs, TableOf(funcs, top, naming))
  {
    hide Distinct, Marks, CompProgram;
    hide ItemsOf, TableOf, Compiled, CodeOf;
    forall f | f in funcs
      ensures End(f.name) in TableOf(funcs, top, naming)
    {
      NameFound(funcs, f);
      var k := FindFirst(funcs, f.name);
      FunctionPlaced(funcs, k, top, naming);
      CompiledLabels(CodeOf(ItemsOf(funcs, top, naming).value), TableOf(funcs, top, naming), funcs[k]);
    }
  }

  lemma CompiledLabels(code: seq<Instr>, tab: Table, f: Function)
    requires f.params <= MaxArgs && Compiled(code, tab, f)
    ensures Func(f.name) in tab && End(f.name) in tab
  {
  }

  lemma {:induction false} NameFound(funcs: seq<Function>, f: Function)
    requires f in funcs
    ensures FindIn(funcs, f.name).Some?
    decreases |funcs|
  {
    if funcs[0].name != f.name {
      NameFound(funcs[1..], f);
    }
  }

  /** A program the compiler lowers without an error, and that fits below its stack, is loaded as its
      correctness proof expects; of several functions with one name the first counts. */
  lemma CompiledIsLoaded(funcs: seq<Function>, lo: nat, top: Word, naming: Naming)
    requires WellFormed(funcs) && ItemsOf(funcs, top, naming).Some?
    requires |CodeOf(ItemsOf(funcs, top, naming).value)| < lo <= top
    requires Distinct(Marks(CompProgram(funcs, top)), naming)
    ensures Defined(funcs, TableOf(funcs, top, naming))
    ensures var code, tab := CodeOf(ItemsOf(funcs, top, naming).value), TableOf(funcs, top, naming);
            Loaded(CfgOf(funcs, code, tab, lo, top), code, tab)
  {
    hide Distinct, Marks, CompProgram;
    hide ItemsOf, TableOf, Compiled, CodeOf, CodeAt, StartOps, FitsStmts;
    var code, tab := CodeOf(ItemsOf(funcs, top, naming).value), TableOf(funcs, top, naming);
    AllDefined(funcs, top, naming);
    StubPlaced(funcs, top, naming);
    var c := CfgOf(funcs, code, tab, lo, top);
    forall name | c.Find(name).Some?
      ensures var f := c.Find(name).value;
              && f.name == name && FitsFunction(f) && Compiled(code, tab, f)
              && name in c.mode.ends && c.mode.ends[name] == tab[End(name)]
    {
      var k := FindFirst(funcs, name);
      FunctionPlaced(funcs, k, top, naming);
      CompiledLabels(code, tab, funcs[k]);
    }
  }

  /** The compiler is correct, if its labels have different texts: the run of the words it emits, started at address 0,
      halts with the memory that the source program leaves. */
  lemma CompilerOk(funcs: seq<Function>, lo: nat, top: Word, naming: Naming, fuel: nat, s: State)
    returns (c: Cfg, t: State)
    requires WellFormed(funcs) && ItemsOf(funcs, top, naming).Some?
    requires |CodeOf(ItemsOf(funcs, top, naming).value)| < lo <= top && s.pc == 0
    requires Distinct(Marks(CompProgram(funcs, top)), naming)
    ensures Defined(funcs, TableOf(funcs, top, naming))
    ensures c == CfgOf(funcs, CodeOf(ItemsOf(funcs, top, naming).value), TableOf(funcs, top, naming), lo, top)
    ensures var code := CodeOf(ItemsOf(funcs, top, naming).value);
            RunMain(c, s.mem, fuel).Done? ==>
              && Reaches(code, s, t) && t.pc == 0xFFFF && Step(code, t).None?
              && t.regs[SP] == top && t.regs[0] == 0xFFFF
              && forall a: Word :: !(lo <= a < top) ==> t.mem[a] == RunMain(c, s.mem, fuel).mem[a]
  {
    hide Distinct, Marks, CompProgram;
    hide ItemsOf, TableOf, CodeOf, Loaded, RunMain, Reaches, Step;
    var code, tab := CodeOf(ItemsOf(funcs, top, naming).value), TableOf(funcs, top, naming);
    CompiledIsLoaded(funcs, lo, top, naming);
    c := CfgOf(funcs, code, tab, lo, top);
    t := s;
    if RunMain(c, s.mem, fuel).Done? {
      t := ProgramOk(c, code, tab, fuel, s);
    }
  }
}
