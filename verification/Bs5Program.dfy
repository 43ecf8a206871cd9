/** The BackSlash 5 program being assembled: words placed at the current address, never twice at one address. */
module Bs5Program {
  import opened Bs5Isa
  import opened Bs5Micro

  /** A source line that places words, or sets the address. */
  datatype Line =
    | Org(a: nat)
    | CoreLine(c: Condition, f: Mark, i: Core)
    | MicroLine(c: Condition, f: Mark, m: Micro)
    | R0Line(c: Condition, f: Mark, v: int)

  datatype Image = Image(pc: nat, cells: map<nat, Cell>, errors: nat)

  const Empty: Image := Image(0, map[], 0)

  function AddCell(size: nat, p: Image, cell: Cell): Image {
    if p.pc >= size || p.pc in p.cells then p.(errors := p.errors + 1)
    else Image(p.pc + 1, p.cells[p.pc := cell], p.errors)
  }

  function AddCells(size: nat, p: Image, block: seq<Cell>): Image
    decreases |block|
  {
    if block == [] then p else AddCells(size, AddCell(size, p, block[0]), block[1..])
  }

  function CellsOf(l: Line): seq<Cell> {
    match l
    case Org(_) => []
    case CoreLine(c, f, i) => Guarded(c, Sets(f, i), i)
    case MicroLine(c, f, m) => Assembled(c, f, m)
    case R0Line(c, f, v) => MovR0Imm16(c, f, v % 0x10000)
  }

  function AddLine(size: nat, p: Image, l: Line): Image {
    if l.Org? then p.(pc := l.a) else AddCells(size, p, CellsOf(l))
  }

  function Assemble(size: nat, ls: seq<Line>): Image {
    if ls == [] then Empty else AddLine(size, Assemble(size, ls[..|ls| - 1]), ls[|ls| - 1])
  }

  // ----- nothing is overwritten -----

  ghost predicate Grows(p: Image, q: Image) {
    && p.errors <= q.errors
    && forall a :: a in p.cells ==> a in q.cells && q.cells[a] == p.cells[a]
  }

  ghost predicate Holds(p: Image, pos: nat, block: seq<Cell>) {
    forall a: nat :: pos <= a < pos + |block| ==> HasWord(p, a, pos, block)
  }

  /** The address holds the word that belongs there if the block starts at pos. */
  predicate HasWord(p: Image, a: nat, pos: nat, block: seq<Cell>)
    requires pos <= a < pos + |block|
  {
    a in p.cells && p.cells[a] == block[a - pos]
  }

  predicate FreeAt(size: nat, p: Image, a: nat) { a < size && a !in p.cells }

  ghost predicate Free(size: nat, p: Image, lo: nat, n: nat) {
    forall a: nat :: lo <= a < lo + n ==> FreeAt(size, p, a)
  }

  /** A block is placed without an error exactly if its addresses are free and inside the memory. It then lies at
      the address it started at; the rest of the image is as before. */
  lemma {:induction false} BlockPlaced(size: nat, p: Image, block: seq<Cell>)
    ensures var q := AddCells(size, p, block);
            && Grows(p, q)
            && (q.errors == p.errors <==> Free(size, p, p.pc, |block|))
            && (q.errors == p.errors ==>
                 Holds(q, p.pc, block) && q.pc == p.pc + |block| && |q.cells| == |p.cells| + |block|)
    decreases |block|
  {
    hide Holds, Free, Grows, AddCell;
    NothingPlaced(size, p, p.pc);
    if block != [] {
      BlockPlaced(size, AddCell(size, p, block[0]), block[1..]);
      OneThenRest(size, p, AddCell(size, p, block[0]), AddCells(size, p, block), block);
    }
  }

  lemma OneThenRest(size: nat, p: Image, p1: Image, q: Image, block: seq<Cell>)
    requires block != [] && p1 == AddCell(size, p, block[0]) && Grows(p1, q)
    requires q.errors == p1.errors <==> Free(size, p1, p1.pc, |block| - 1)
    requires q.errors == p1.errors ==> Holds(q, p1.pc, block[1..])
    ensures Grows(p, q)
    ensures q.errors == p.errors <==> Free(size, p, p.pc, |block|)
    ensures q.errors == p.errors ==> p1.errors == p.errors && p1.pc == p.pc + 1 && |p1.cells| == |p.cells| + 1
    ensures q.errors == p.errors ==> Holds(q, p.pc, block)
  {
    hide Holds, Free, Grows, AddCell;
    OnePlaced(size, p, block);
    GrowsOn(p, p1, q);
    if FreeAt(size, p, p.pc) {
      Shifted(p1, q, p.pc, block);
      FreeCons(size, p, p1, |block| - 1);
    } else {
      Blocked(size, p, |block|);
    }
  }

  lemma NothingPlaced(size: nat, p: Image, pos: nat)
    ensures Holds(p, pos, []) && Free(size, p, pos, 0) && Grows(p, p)
  {
  }

  lemma OnePlaced(size: nat, p: Image, block: seq<Cell>)
    requires block != []
    ensures var p1 := AddCell(size, p, block[0]);
            && Grows(p, p1)
            && (if FreeAt(size, p, p.pc)
                then p1.errors == p.errors && p1.pc == p.pc + 1 && p1.cells.Keys == p.cells.Keys + {p.pc}
                     && |p1.cells| == |p.cells| + 1 && HasWord(p1, p.pc, p.pc, block)
                else p1.errors > p.errors)
  {
  }

  lemma GrowsOn(p: Image, q: Image, r: Image)
    requires Grows(p, q) && Grows(q, r)
    ensures Grows(p, r) && p.errors <= q.errors <= r.errors
  {
  }

  lemma Blocked(size: nat, p: Image, n: nat)
    requires n > 0 && !FreeAt(size, p, p.pc)
    ensures !Free(size, p, p.pc, n)
  {
  }

  lemma Shifted(p1: Image, q: Image, pos: nat, block: seq<Cell>)
    requires block != [] && Grows(p1, q) && HasWord(p1, pos, pos, block)
    ensures Holds(q, pos + 1, block[1..]) ==> Holds(q, pos, block)
  {
    if Holds(q, pos + 1, block[1..]) {
      forall a: nat | pos <= a < pos + |block|
        ensures HasWord(q, a, pos, block)
      {
        if a > pos {
          assert HasWord(q, a, pos + 1, block[1..]);
        }
      }
    }
  }

  lemma FreeCons(size: nat, p: Image, p1: Image, n: nat)
    requires FreeAt(size, p, p.pc) && p1.pc == p.pc + 1 && p1.cells.Keys == p.cells.Keys + {p.pc}
    ensures Free(size, p1, p1.pc, n) <==> Free(size, p, p.pc, n + 1)
  {
    assert forall a: nat :: a > p.pc ==> (FreeAt(size, p1, a) <==> FreeAt(size, p, a));
  }

  lemma GrowsHolds(p: Image, q: Image, pos: nat, block: seq<Cell>)
    requires Grows(p, q) && Holds(p, pos, block)
    ensures Holds(q, pos, block)
  {
    forall a: nat | pos <= a < pos + |block|
      ensures HasWord(q, a, pos, block)
    {
      assert HasWord(p, a, pos, block);
    }
  }

  /** If assembly reports no error, every line's words lie where the line stood, whatever came after it. */
  lemma {:induction false} LinesStay(size: nat, ls: seq<Line>, k: nat)
    requires k < |ls| && Assemble(size, ls).errors == 0
    ensures Holds(Assemble(size, ls), Assemble(size, ls[..k]).pc, CellsOf(ls[k]))
    decreases |ls|
  {
    hide CellsOf, Holds, AddCells, Grows;
    var n := |ls| - 1;
    var p, q := Assemble(size, ls[..n]), Assemble(size, ls);
    BlockPlaced(size, p, CellsOf(ls[n]));
    NoCells(ls[n], q, p.pc);
    GrowsErrors(p, AddCells(size, p, CellsOf(ls[n])));
    if k < n {
      LinesStay(size, ls[..n], k);
      assert ls[..n][..k] == ls[..k];
      GrowsCells(p, AddCells(size, p, CellsOf(ls[n])), q);
      GrowsHolds(p, q, Assemble(size, ls[..k]).pc, CellsOf(ls[k]));
    }
  }

  lemma NoCells(l: Line, q: Image, pos: nat)
    ensures l.Org? ==> CellsOf(l) == [] && Holds(q, pos, CellsOf(l)) && forall size, p :: AddCells(size, p, CellsOf(l)) == p
  {
  }

  lemma GrowsErrors(p: Image, q: Image)
    requires Grows(p, q)
    ensures p.errors <= q.errors
  {
  }

  lemma GrowsCells(p: Image, q: Image, r: Image)
    requires Grows(p, q) && r.cells == q.cells && r.errors == q.errors
    ensures Grows(p, r)
  {
  }

  class Program {
    const memorySize: nat
    var pc: nat
    var cells: map<nat, Cell>
    var errors: nat

    /** The size is brought into the range 256 to 65536. */
    constructor (size: nat)
      ensures memorySize == (if size > 65536 then 65536 else if size < 256 then 256 else size)
      ensures P() == Empty
    {
      memorySize := if size > 65536 then 65536 else if size < 256 then 256 else size;
      pc, cells, errors := 0, map[], 0;
    }

    ghost function P(): Image
      reads this
    {
      Image(pc, cells, errors)
    }

    method AddMemoryCell(cell: Cell)
      modifies this
      ensures P() == AddCell(memorySize, old(P()), cell)
    {
      if pc >= memorySize || pc in cells {
        errors := errors + 1;
      } else {
        cells := cells[pc := cell];
        pc := pc + 1;
      }
    }

    method AddAll(block: seq<Cell>)
      modifies this
      ensures P() == AddCells(memorySize, old(P()), block)
    {
      ghost var p := P();
      for i := 0 to |block|
        invariant AddCells(memorySize, P(), block[i..]) == AddCells(memorySize, p, block)
      {
        assert block[i..][1..] == block[i + 1..];
        AddMemoryCell(block[i]);
      }
    }

    /** A derived condition is moved to the X flag first; returns the condition for the word itself. */
    method ConditionPrefix(c: Condition) returns (cond: Cond)
      modifies this
      ensures forall fl, i :: AddCells(memorySize, old(P()), Guarded(c, fl, i)) ==
                              AddCell(memorySize, P(), Cell(cond, fl, i))
    {
      match c
      case Plain(core) =>
        cond := core;
      case Derived(b, on) =>
        ghost var p := P();
        AddMemoryCell(Quiet(FlagToX(b)));
        cond := if on then Xs else Xc;
        forall fl: bool, i: Core
          ensures AddCells(memorySize, p, Guarded(c, fl, i)) == AddCell(memorySize, P(), Cell(cond, fl, i))
        {
          TwoCells(memorySize, p, Quiet(FlagToX(b)), Cell(cond, fl, i));
        }
    }

    method AddCore(c: Condition, fl: bool, i: Core)
      modifies this
      ensures P() == AddCells(memorySize, old(P()), Guarded(c, fl, i))
    {
      var cond := ConditionPrefix(c);
      AddMemoryCell(Cell(cond, fl, i));
    }

    method AddPrologue(c: Condition, n: nat)
      requires n < 128
      modifies this
      ensures P() == AddCells(memorySize, old(P()), Prologue(c, n))
    {
      if c != Plain(Al) {
        AddAppend(memorySize, P(), Guarded(c, false, AddPc(1)), [Quiet(AddPc(n))]);
        AddCore(c, false, AddPc(1));
        AddMemoryCell(Quiet(AddPc(n)));
      }
    }

    method AddMicro(c: Condition, f: Mark, m: Micro)
      modifies this
      ensures P() == AddCells(memorySize, old(P()), Assembled(c, f, m))
    {
      hide Body, Prologue;
      AddAppend(memorySize, P(), Prologue(c, SkipSize(m)), Body(m, f));
      AddPrologue(c, SkipSize(m));
      AddAll(Body(m, f));
    }

    method AddSource(ls: seq<Line>)
      requires P() == Empty
      modifies this
      ensures P() == Assemble(memorySize, ls)
    {
      for k := 0 to |ls|
        invariant P() == Assemble(memorySize, ls[..k])
      {
        assert ls[..k + 1][..k] == ls[..k];
        match ls[k]
        case Org(a) => pc := a;
        case CoreLine(c, f, i) => AddCore(c, Sets(f, i), i);
        case MicroLine(c, f, m) => AddMicro(c, f, m);
        case R0Line(c, f, v) => AddAll(MovR0Imm16(c, f, v % 0x10000));
      }
      assert ls[..|ls|] == ls;
    }
  }

  lemma {:induction false} TwoCells(size: nat, p: Image, x: Cell, y: Cell)
    ensures AddCells(size, p, [x, y]) == AddCell(size, AddCell(size, p, x), y)
  {
    assert [x, y][1..] == [y] && [y][1..] == [];
    assert AddCells(size, AddCell(size, p, x), [y]) == AddCell(size, AddCell(size, p, x), y);
  }

  lemma {:induction false} AddAppend(size: nat, p: Image, a: seq<Cell>, b: seq<Cell>)
    ensures AddCells(size, p, a + b) == AddCells(size, AddCells(size, p, a), b)
    decreases |a|
  {
    if a == [] {
      assert a + b == b;
    } else {
      assert (a + b)[1..] == a[1..] + b;
      AddAppend(size, AddCell(size, p, a[0]), a[1..], b);
    }
  }
}
