/** Agreement of the two passes: labels never move, every line is written where it was placed. */
module Bs9AsmAgree {
  import opened Options
  import opened Words
  import opened Bs9Asm

  // ----- the label table only grows -----

  predicate Extends(tab: Symbols, tab': Symbols) {
    forall name :: name in tab ==> name in tab' && tab'[name] == tab[name]
  }

  lemma {:induction false} AddLabelsExtends(st: Pass1, names: seq<string>)
    ensures Extends(st.tab, AddLabels(st, names).tab) && AddLabels(st, names).errors >= st.errors
    ensures AddLabels(st, names).pc == st.pc && AddLabels(st, names).lines == st.lines
    decreases |names|
  {
    if names != [] {
      AddLabelsExtends(AddLabel(st, names[0]), names[1..]);
    }
  }

  lemma {:induction false} FirstExtends(src: seq<SrcLine>, k: nat)
    requires k <= |src|
    ensures Extends(First(src[..k]).tab, First(src).tab) && First(src[..k]).errors <= First(src).errors
    decreases |src| - k
  {
    if k == |src| {
      assert src[..k] == src;
    } else {
      FirstExtends(src, k + 1);
      assert src[..k + 1][..k] == src[..k];
      AddLabelsExtends(First(src[..k]), src[k].labels);
    }
  }

  /** An expression with a value keeps it when labels are added. */
  lemma {:induction false} EvalStable(tab: Symbols, tab': Symbols, e: Sum)
    requires Extends(tab, tab') && Eval(tab, e).Some?
    ensures Eval(tab', e) == Eval(tab, e)
    decreases |e|
  {
    if |e| > 1 {
      EvalStable(tab, tab', e[1..]);
    } else {
      assert e[1..] == [] && SumValue(tab', e[1..]) == Some(0) == SumValue(tab, e[1..]);
    }
  }

  // ----- what each line contributes -----

  function DwWords(tab: Symbols, es: seq<Sum>): Option<seq<Word>> {
    if es == [] then Some([]) else
    var v, rest := WordValue(tab, es[0]), DwWords(tab, es[1..]);
    if v.None? || rest.None? then None else Some([v.value] + rest.value)
  }

  /** The words of a placed line, or nothing if the second pass reports an error for it. */
  function Contents(tab: Symbols, p: Placed): Option<seq<Word>> {
    match p.stmt
    case Org(_) => Some([])
    case EndDir => Some([])
    case Dw(es) => DwWords(tab, es)
    case Fill(args) =>
      var n := Reserved(tab, p.stmt);
      if n.None? then None else
      var v := FillValue(tab, args);
      if v.None? then None else Some(seq(n.value, i => v.value))
    case Code(mn, cond, ops) =>
      match Encode(tab, p.addr, mn, cond, ops)
      case Enc(w) => Some([w])
      case Rejected => None
      case Dropped => Some([])
  }

  /** A special instruction with a 4-bit immediate and the wrong number of operands vanishes. */
  predicate Vanishes(p: Placed) {
    match p.stmt
    case Code(Special(_, _, Imm4), _, ops) => |ops| != 1
    case _ => false
  }

  function EmitAll(st: Pass2, addr: int, ws: seq<Word>): Pass2
    decreases |ws|
  {
    if ws == [] then st else EmitAll(EmitWord(st, addr, ws[0]), addr + 1, ws[1..])
  }

  predicate Inside(a: int, addr: int, n: nat) { addr <= a < addr + n }

  function Span(addr: int, n: nat): set<int> { set a | addr <= a < addr + n && Inside(a, addr, n) }

  predicate Disjoint(m: map<int, Word>, b: map<int, Word>) { forall a | a in m :: a !in b }

  function BlockAt(addr: int, ws: seq<Word>): (b: map<int, Word>)
    ensures b.Keys == Span(addr, |ws|)
  {
    map a | a in Span(addr, |ws|) :: ws[a - addr]
  }

  lemma {:induction false} EmitAllIs(st: Pass2, addr: int, ws: seq<Word>)
    requires 0 <= addr && addr + |ws| <= 0x10000
    ensures EmitAll(st, addr, ws).errors >= st.errors
    ensures EmitAll(st, addr, ws).errors == st.errors <==> Disjoint(st.mem, BlockAt(addr, ws))
    ensures EmitAll(st, addr, ws).errors == st.errors ==> EmitAll(st, addr, ws).mem == st.mem + BlockAt(addr, ws)
    decreases |ws|
  {
    hide BlockAt, Span, Disjoint;
    if ws == [] {
      NoBlock(st.mem, addr);
    } else {
      var st' := EmitWord(st, addr, ws[0]);
      EmitAllIs(st', addr + 1, ws[1..]);
      BlockCons(addr, ws);
      Peel(st.mem, addr, ws[0], BlockAt(addr + 1, ws[1..]));
    }
  }

  lemma NoBlock(m: map<int, Word>, addr: int)
    ensures Disjoint(m, BlockAt(addr, [])) && m + BlockAt(addr, []) == m
  {
    assert BlockAt(addr, []) == map[];
  }

  lemma BlockValue(addr: int, ws: seq<Word>, a: int)
    ensures a in BlockAt(addr, ws) <==> addr <= a < addr + |ws|
    ensures a in BlockAt(addr, ws) ==> BlockAt(addr, ws)[a] == ws[a - addr]
  {
    assert Inside(a, addr, |ws|) <==> addr <= a < addr + |ws|;
  }

  lemma BlockCons(addr: int, ws: seq<Word>)
    requires ws != []
    ensures BlockAt(addr, ws) == map[addr := ws[0]] + BlockAt(addr + 1, ws[1..])
    ensures addr !in BlockAt(addr + 1, ws[1..])
  {
  }

  lemma Peel(m: map<int, Word>, a: int, v: Word, b: map<int, Word>)
    requires a !in b
    ensures Disjoint(m, (map[a := v] + b)) <==> a !in m && Disjoint(m[a := v], b)
    ensures a !in m && Disjoint(m, b) ==> m[a := v] + b == m + (map[a := v] + b)
  {
    assert (map[a := v] + b).Keys == {a} + b.Keys;
    assert m[a := v].Keys == m.Keys + {a};
  }

  lemma {:induction false} EmitDwIs(st: Pass2, tab: Symbols, addr: int, es: seq<Sum>)
    ensures var ws := DwWords(tab, es);
            && (ws.Some? ==> |ws.value| == |es| && EmitDw(st, tab, addr, es) == EmitAll(st, addr, ws.value))
            && EmitDw(st, tab, addr, es).errors >= st.errors
            && (ws.None? ==> EmitDw(st, tab, addr, es).errors > st.errors)
    decreases |es|
  {
    if es != [] {
      var v := WordValue(tab, es[0]);
      var st' := if v.Some? then EmitWord(st, addr, v.value) else st.(errors := st.errors + 1);
      EmitDwIs(st', tab, addr + 1, es[1..]);
    }
  }

  lemma {:induction false} EmitFillIs(st: Pass2, addr: int, n: nat, v: Word)
    ensures EmitFill(st, addr, n, v) == EmitAll(st, addr, seq(n, i => v))
    decreases n
  {
    if n > 0 {
      assert seq(n, i => v)[1..] == seq(n - 1, i => v);
      EmitFillIs(EmitWord(st, addr, v), addr + 1, n - 1, v);
    }
  }

  /** A line fits where it was placed. */
  predicate Fits(tab: Symbols, p: Placed) {
    p.addr + p.words <= 0x10000 && (Contents(tab, p).Some? ==> |Contents(tab, p).value| <= p.words)
  }

  lemma Line2Is(st: Pass2, tab: Symbols, p: Placed)
    requires Fits(tab, p)
    ensures var ws, st' := Contents(tab, p), Line2(st, tab, p);
            && st'.errors >= st.errors
            && (st'.errors == st.errors <==> ws.Some? && Disjoint(st.mem, BlockAt(p.addr, ws.value)))
            && (st'.errors == st.errors ==> st'.mem == st.mem + BlockAt(p.addr, ws.value))
  {
    hide Encode;
    var ws := Contents(tab, p);
    match p.stmt
    case Dw(es) =>
      EmitDwIs(st, tab, p.addr, es);
      if ws.Some? {
        EmitAllIs(st, p.addr, ws.value);
      }
    case Fill(args) =>
      var n, v := Reserved(tab, p.stmt), FillValue(tab, args);
      if n.Some? && v.Some? {
        EmitFillIs(st, p.addr, n.value, v.value);
        EmitAllIs(st, p.addr, ws.value);
      }
    case Code(mn, cond, ops) =>
      if ws.Some? {
        EmitAllIs(st, p.addr, ws.value);
        OneWord(st, p.addr, ws.value);
      }
    case _ => EmitAllIs(st, p.addr, []);
  }

  lemma {:induction false} OneWord(st: Pass2, addr: int, ws: seq<Word>)
    requires |ws| <= 1
    ensures EmitAll(st, addr, ws) == if ws == [] then st else EmitWord(st, addr, ws[0])
  {
  }

  // ----- the second pass as a whole -----

  ghost predicate Separate(tab: Symbols, p: Placed, q: Placed) {
    Contents(tab, p).Some? && Contents(tab, q).Some? ==>
      Disjoint(BlockAt(p.addr, Contents(tab, p).value), BlockAt(q.addr, Contents(tab, q).value))
  }

  /** All lines assemble and no two write the same address. */
  ghost predicate Clean(tab: Symbols, lines: seq<Placed>) {
    && (forall i :: 0 <= i < |lines| ==> Contents(tab, lines[i]).Some?)
    && (forall i, j :: 0 <= i < j < |lines| ==> Separate(tab, lines[i], lines[j]))
  }

  ghost predicate WrittenBy(tab: Symbols, lines: seq<Placed>, i: nat, a: int) {
    i < |lines| && Contents(tab, lines[i]).Some? && a in BlockAt(lines[i].addr, Contents(tab, lines[i]).value)
  }

  ghost predicate Written(tab: Symbols, lines: seq<Placed>, a: int) {
    exists i: nat :: WrittenBy(tab, lines, i, a)
  }

  /** The second pass succeeds exactly on clean lines, and then memory holds each line's words at its place
      and nothing else. */
  lemma {:induction false} SecondIs(tab: Symbols, lines: seq<Placed>)
    requires forall i :: 0 <= i < |lines| ==> Fits(tab, lines[i])
    ensures var st := Second(Pass2(map[], 0), tab, lines);
            && (st.errors == 0 <==> Clean(tab, lines))
            && (st.errors == 0 ==> Holds(tab, lines, st.mem))
    decreases |lines|
  {
    hide Contents, Fits, Line2, Holds, BlockAt, Span, Clean;
    if lines == [] {
      Nothing(tab);
    } else {
      var n := |lines| - 1;
      var init, p := lines[..n], lines[n];
      SecondIs(tab, init);
      var before := Second(Pass2(map[], 0), tab, init);
      Line2Is(before, tab, p);
      if before.errors == 0 && Contents(tab, p).Some? {
        AddClean(tab, init, p, before.mem);
      } else {
        CleanInit(tab, init, p);
      }
      assert lines == init + [p];
    }
  }

  /** Memory holds each line's words at its place and nothing else. */
  ghost predicate Holds(tab: Symbols, lines: seq<Placed>, mem: map<int, Word>) {
    && (forall i: nat, a | WrittenBy(tab, lines, i, a) :: Shows(tab, lines, mem, i, a))
    && (forall a | a in mem :: Written(tab, lines, a))
  }

  ghost predicate Shows(tab: Symbols, lines: seq<Placed>, mem: map<int, Word>, i: nat, a: int)
    requires WrittenBy(tab, lines, i, a)
  {
    a in mem && mem[a] == Contents(tab, lines[i]).value[a - lines[i].addr]
  }

  lemma Nothing(tab: Symbols)
    ensures Clean(tab, []) && Holds(tab, [], map[])
  {
  }

  lemma CleanInit(tab: Symbols, init: seq<Placed>, p: Placed)
    ensures Clean(tab, init + [p]) ==> Clean(tab, init) && Contents(tab, p).Some?
  {
    hide Contents, Separate;
    var lines := init + [p];
    assert lines[|init|] == p;
    assert forall i :: 0 <= i < |init| ==> lines[i] == init[i];
  }

  lemma AddClean(tab: Symbols, init: seq<Placed>, p: Placed, mem: map<int, Word>)
    requires Clean(tab, init) && Holds(tab, init, mem) && Contents(tab, p).Some?
    ensures var b := BlockAt(p.addr, Contents(tab, p).value);
            && (Disjoint(mem, b) <==> Clean(tab, init + [p]))
            && (Disjoint(mem, b) ==> Holds(tab, init + [p], mem + b))
  {
    hide Contents, Span, Clean, Holds, BlockAt;
    var b := BlockAt(p.addr, Contents(tab, p).value);
    if a :| a in mem && a in b {
      Clashes(tab, init, p, mem, a);
    } else {
      StillClean(tab, init, p, mem);
      StillHolds(tab, init, p, mem);
    }
  }

  lemma SameWriters(tab: Symbols, init: seq<Placed>, p: Placed, i: nat, a: int)
    ensures i < |init| ==> (init + [p])[i] == init[i]
    ensures i < |init| ==> (WrittenBy(tab, init + [p], i, a) <==> WrittenBy(tab, init, i, a))
    ensures (init + [p])[|init|] == p
  {
  }

  lemma StillClean(tab: Symbols, init: seq<Placed>, p: Placed, mem: map<int, Word>)
    requires Clean(tab, init) && Holds(tab, init, mem) && Contents(tab, p).Some?
    requires Disjoint(mem, BlockAt(p.addr, Contents(tab, p).value))
    ensures Clean(tab, init + [p])
  {
    hide Contents, Span, BlockAt;
    var lines := init + [p];
    forall i | 0 <= i < |init|
      ensures lines[i] == init[i] && Separate(tab, lines[i], p)
    {
      forall a | a in BlockAt(init[i].addr, Contents(tab, init[i]).value)
        ensures a !in BlockAt(p.addr, Contents(tab, p).value)
      {
        assert WrittenBy(tab, init, i, a);
      }
    }
  }

  lemma StillHolds(tab: Symbols, init: seq<Placed>, p: Placed, mem: map<int, Word>)
    requires Holds(tab, init, mem) && Contents(tab, p).Some?
    requires Disjoint(mem, BlockAt(p.addr, Contents(tab, p).value))
    ensures Holds(tab, init + [p], mem + BlockAt(p.addr, Contents(tab, p).value))
  {
    hide Contents, BlockAt, Span, Disjoint, WrittenBy;
    var lines, b := init + [p], BlockAt(p.addr, Contents(tab, p).value);
    forall i: nat, a | WrittenBy(tab, lines, i, a)
      ensures Shows(tab, lines, mem + b, i, a)
    {
      ShownAfter(tab, init, p, mem, i, a);
    }
    forall a | a in mem + b
      ensures Written(tab, lines, a)
    {
      WrittenAfter(tab, init, p, mem, a);
    }
  }

  lemma ShownAfter(tab: Symbols, init: seq<Placed>, p: Placed, mem: map<int, Word>, i: nat, a: int)
    requires Holds(tab, init, mem) && Contents(tab, p).Some?
    requires Disjoint(mem, BlockAt(p.addr, Contents(tab, p).value))
    requires WrittenBy(tab, init + [p], i, a)
    ensures Shows(tab, init + [p], mem + BlockAt(p.addr, Contents(tab, p).value), i, a)
  {
    hide Contents, BlockAt, Written;
    var b := BlockAt(p.addr, Contents(tab, p).value);
    SameWriters(tab, init, p, i, a);
    if i < |init| {
      assert Shows(tab, init, mem, i, a);
    } else {
      BlockValue(p.addr, Contents(tab, p).value, a);
    }
  }

  lemma WrittenAfter(tab: Symbols, init: seq<Placed>, p: Placed, mem: map<int, Word>, a: int)
    requires Holds(tab, init, mem) && Contents(tab, p).Some?
    requires a in mem + BlockAt(p.addr, Contents(tab, p).value)
    ensures Written(tab, init + [p], a)
  {
    hide Contents, BlockAt, Span, Shows;
    if a in BlockAt(p.addr, Contents(tab, p).value) {
      SameWriters(tab, init, p, |init|, a);
      assert WrittenBy(tab, init + [p], |init|, a);
    } else {
      assert Written(tab, init, a);
      var i: nat :| WrittenBy(tab, init, i, a);
      SameWriters(tab, init, p, i, a);
    }
  }

  lemma Clashes(tab: Symbols, init: seq<Placed>, p: Placed, mem: map<int, Word>, a: int)
    requires Holds(tab, init, mem) && Contents(tab, p).Some?
    requires a in mem && a in BlockAt(p.addr, Contents(tab, p).value)
    ensures !Clean(tab, init + [p])
  {
    hide Contents, Span, BlockAt, Shows;
    assert Written(tab, init, a);
    var i: nat :| WrittenBy(tab, init, i, a);
    SameWriters(tab, init, p, i, a);
    SameWriters(tab, init, p, |init|, a);
    assert !Separate(tab, (init + [p])[i], (init + [p])[|init|]);
  }

  // ----- what the first pass guarantees about placed lines -----

  /** A line placed by the first pass, under the labels known by then. */
  ghost predicate PlacedUnder(tab: Symbols, p: Placed) {
    && p.addr + p.words <= 0x10000
    && Reserved(tab, p.stmt).Some? && p.words == Reserved(tab, p.stmt).value
  }

  lemma {:induction false} DwLength(tab: Symbols, es: seq<Sum>)
    ensures DwWords(tab, es).Some? ==> |DwWords(tab, es).value| == |es|
  {
    if es != [] {
      DwLength(tab, es[1..]);
    }
  }

  /** With the final label table the second pass writes as many words as were reserved, or none for a line
      that vanishes. */
  lemma PlacedFits(tab: Symbols, tab': Symbols, p: Placed)
    requires PlacedUnder(tab, p) && Extends(tab, tab')
    ensures Fits(tab', p)
    ensures Contents(tab', p).Some? ==>
              |Contents(tab', p).value| == if Vanishing(p) then 0 else p.words
  {
    hide EncodeGeneric, EncodeJmp, EncodeAr0;
    match p.stmt
    case Dw(es) => DwLength(tab', es);
    case Fill(args) => EvalStable(tab, tab', args[0]);
    case _ =>
  }

  /** The statement is dropped without an error. */
  predicate Vanishing(p: Placed) {
    match p.stmt
    case Code(mn, cond, ops) => Vanishes(p) && cond.Some? && KnownMnemonic(mn)
    case _ => false
  }

  lemma {:induction false} FirstPlaces(src: seq<SrcLine>, i: nat)
    requires First(src).errors == 0 && i < |First(src).lines|
    ensures exists tab :: Extends(tab, First(src).tab) && PlacedUnder(tab, First(src).lines[i])
    ensures First(src).pc <= 0x10000
    decreases |src|
  {
    hide AddLabels, Place, PlacedUnder, Extends;
    var n := |src| - 1;
    var before, l := First(src[..n]), src[n];
    var named := AddLabels(before, l.labels);
    AddLabelsExtends(before, l.labels);
    PcFits(src[..n]);
    PcFits(src);
    if l.stmt.Some? {
      PlaceAdds(named, l.stmt.value);
    }
    if i < |before.lines| {
      FirstPlaces(src[..n], i);
      var tab :| Extends(tab, before.tab) && PlacedUnder(tab, before.lines[i]);
      ExtendsOn(tab, before.tab, First(src).tab);
    } else {
      ExtendsOn(named.tab, named.tab, First(src).tab);
    }
  }

  lemma ExtendsOn(a: Symbols, b: Symbols, c: Symbols)
    requires (a == b || Extends(a, b)) && (b == c || Extends(b, c))
    ensures Extends(a, c)
  {
  }

  lemma PlaceAdds(st: Pass1, s: Stmt)
    requires st.pc <= 0x10000 && Place(st, s).errors == 0
    ensures Place(st, s).tab == st.tab && st.errors == 0
    ensures |Place(st, s).lines| == |st.lines| + 1 && Place(st, s).lines[..|st.lines|] == st.lines
    ensures PlacedUnder(st.tab, Place(st, s).lines[|st.lines|])
  {
  }

  lemma {:induction false} PcFits(src: seq<SrcLine>)
    ensures First(src).pc <= 0x10000
    decreases |src|
  {
    if src != [] {
      PcFits(src[..|src| - 1]);
      AddLabelsExtends(First(src[..|src| - 1]), src[|src| - 1].labels);
    }
  }

  /** Pass agreement. A source assembles exactly when the first pass reports nothing, every line has contents
      under the final labels and no two lines write the same address; then each line's words lie where the first
      pass placed it, as many as it reserved unless the line vanishes, every other output word is 0 and
      the output ends with a written word. */
  lemma {:induction false} PassAgreement(src: seq<SrcLine>)
    ensures var p1 := First(src);
            && (Assemble(src).Some? <==> p1.errors == 0 && Clean(p1.tab, p1.lines))
            && (Assemble(src).Some? ==>
                 var image := Assemble(src).value;
                 && (forall i: nat | i < |p1.lines| :: LineIs(p1.tab, p1.lines[i], image))
                 && (forall a | 0 <= a < |image| :: image[a] != 0 ==> Written(p1.tab, p1.lines, a))
                 && (image != [] ==> Written(p1.tab, p1.lines, |image| - 1)))
  {
    var p1 := First(src);
    if p1.errors == 0 {
      forall i: nat | i < |p1.lines|
        ensures Fits(p1.tab, p1.lines[i])
        ensures Contents(p1.tab, p1.lines[i]).Some? ==>
                  |Contents(p1.tab, p1.lines[i]).value| == if Vanishing(p1.lines[i]) then 0 else p1.lines[i].words
      {
        FirstPlaces(src, i);
        var tab :| Extends(tab, p1.tab) && PlacedUnder(tab, p1.lines[i]);
        PlacedFits(tab, p1.tab, p1.lines[i]);
      }
      SecondIs(p1.tab, p1.lines);
      if Assemble(src).Some? {
        var mem := Second(Pass2(map[], 0), p1.tab, p1.lines).mem;
        HighestIs(mem, MaxWords);
        forall i: nat | i < |p1.lines|
          ensures LineIs(p1.tab, p1.lines[i], Image(mem))
        {
          ImageHas(p1.tab, p1.lines, mem, i);
        }
      }
    }
  }

  /** The image shows the line's words at its address. */
  ghost predicate LineIs(tab: Symbols, p: Placed, image: seq<Word>) {
    && Contents(tab, p).Some?
    && var ws := Contents(tab, p).value;
    && |ws| == (if Vanishing(p) then 0 else p.words)
    && (ws != [] ==> p.addr + |ws| <= |image| && image[p.addr..p.addr + |ws|] == ws)
  }

  lemma {:induction false} HighestIs(mem: map<int, Word>, below: nat)
    ensures Highest(mem, below) <= below
    ensures forall a | 0 <= a < below && a in mem :: a < Highest(mem, below)
    ensures Highest(mem, below) > 0 ==> Highest(mem, below) - 1 in mem
  {
    if below > 0 && below - 1 !in mem {
      HighestIs(mem, below - 1);
    }
  }

  lemma ImageHas(tab: Symbols, lines: seq<Placed>, mem: map<int, Word>, i: nat)
    requires Holds(tab, lines, mem) && i < |lines| && Fits(tab, lines[i]) && Contents(tab, lines[i]).Some?
    ensures var ws, a := Contents(tab, lines[i]).value, lines[i].addr;
            ws != [] ==> a + |ws| <= |Image(mem)| && Image(mem)[a..a + |ws|] == ws
  {
    hide Contents, Highest, Image, BlockAt, Span;
    var ws, addr := Contents(tab, lines[i]).value, lines[i].addr;
    forall k | 0 <= k < |ws|
      ensures MemHas(mem, addr + k, ws[k])
    {
      BlockValue(addr, ws, addr + k);
      assert WrittenBy(tab, lines, i, addr + k) && Shows(tab, lines, mem, i, addr + k);
    }
    if ws != [] {
      ImageSlice(mem, addr, ws);
    }
  }

  predicate MemHas(mem: map<int, Word>, a: int, w: Word) { a in mem && mem[a] == w }

  /** A run of words in memory is in the image. */
  lemma ImageSlice(mem: map<int, Word>, addr: nat, ws: seq<Word>)
    requires addr + |ws| <= MaxWords && ws != []
    requires forall k | 0 <= k < |ws| :: MemHas(mem, addr + k, ws[k])
    ensures addr + |ws| <= |Image(mem)| && Image(mem)[addr..addr + |ws|] == ws
  {
    hide Highest;
    HighestIs(mem, MaxWords);
    assert MemHas(mem, addr + (|ws| - 1), ws[|ws| - 1]);
    var slice := Image(mem)[addr..addr + |ws|];
    forall k | 0 <= k < |ws|
      ensures slice[k] == ws[k]
    {
      assert MemHas(mem, addr + k, ws[k]);
    }
  }

  // ----- sources with one word per line -----

  /** Line i stands at address i; ws[i] is its word, or None if the second pass rejects the line. */
  ghost predicate WordPerLine(tab: Symbols, lines: seq<Placed>, ws: seq<Option<Word>>) {
    |lines| == |ws| <= MaxWords && forall i | 0 <= i < |ws| :: ReadsAs(tab, lines[i], i, ws[i])
  }

  predicate ReadsAs(tab: Symbols, p: Placed, addr: nat, w: Option<Word>) {
    p.addr == addr && Contents(tab, p) == if w.Some? then Some([w.value]) else None
  }

  ghost predicate AllSome(ws: seq<Option<Word>>) { forall i | 0 <= i < |ws| :: ws[i].Some? }

  /** Such a source assembles exactly when no line is rejected, and then gives the words in order. */
  lemma {:induction false} AssembleWords(src: seq<SrcLine>, ws: seq<Option<Word>>)
    requires First(src).errors == 0 && WordPerLine(First(src).tab, First(src).lines, ws)
    ensures Assemble(src).Some? <==> AllSome(ws)
    ensures Assemble(src).Some? ==>
              && |Assemble(src).value| == |ws|
              && forall i | 0 <= i < |ws| :: ws[i] == Some(Assemble(src).value[i])
  {
    hide First, Assemble, Clean, LineIs, Written, WordPerLine, AllSome;
    PassAgreement(src);
    var tab, lines := First(src).tab, First(src).lines;
    CleanWords(tab, lines, ws);
    if Assemble(src).Some? {
      ImageWords(tab, lines, ws, Assemble(src).value);
    }
  }

  lemma CleanWords(tab: Symbols, lines: seq<Placed>, ws: seq<Option<Word>>)
    requires WordPerLine(tab, lines, ws)
    ensures Clean(tab, lines) <==> AllSome(ws)
  {
    hide Contents;
    forall i | 0 <= i < |lines|
      ensures lines[i].addr == i && (Contents(tab, lines[i]).Some? <==> ws[i].Some?)
      ensures Contents(tab, lines[i]).Some? ==> |Contents(tab, lines[i]).value| == 1
    {
      assert ReadsAs(tab, lines[i], i, ws[i]);
    }
  }

  lemma ImageWords(tab: Symbols, lines: seq<Placed>, ws: seq<Option<Word>>, image: seq<Word>)
    requires WordPerLine(tab, lines, ws)
    requires forall i: nat | i < |lines| :: LineIs(tab, lines[i], image)
    requires image != [] ==> Written(tab, lines, |image| - 1)
    ensures |image| == |ws| && forall i | 0 <= i < |ws| :: ws[i] == Some(image[i])
  {
    hide Contents;
    forall i | 0 <= i < |ws|
      ensures i < |image| && ws[i] == Some(image[i])
    {
      assert LineIs(tab, lines[i], image) && ReadsAs(tab, lines[i], i, ws[i]);
      assert image[i..i + 1] == [image[i]];
    }
    if ws != [] {
      var last := ws[|ws| - 1];
    }
    if image != [] {
      var i: nat :| WrittenBy(tab, lines, i, |image| - 1);
      assert ReadsAs(tab, lines[i], i, ws[i]);
      assert Inside(|image| - 1, i, 1);
    }
  }
}
