/** The assembler as it runs: the label table and line list grow, the image and used arrays are written in place. */
module Bs9AsmRun {
  import opened Options
  import opened Words
  import opened Bs9Asm
  import opened Bs9AsmAgree

  /** A label as it was written. */
  datatype Label = Label(name: string, value: Word)

  /** The table a list of labels stands for. */
  function TableOf(labels: seq<Label>): Symbols {
    if labels == [] then map[]
    else
      var last := labels[|labels| - 1];
      TableOf(labels[..|labels| - 1])[Fold(last.name) := last.value]
  }

  /** No two names are the same to the assembler. */
  ghost predicate NamesDiffer(labels: seq<Label>) {
    forall i, j :: 0 <= i < j < |labels| ==> Fold(labels[i].name) != Fold(labels[j].name)
  }

  ghost predicate Has(labels: seq<Label>, key: string) {
    exists i :: 0 <= i < |labels| && Fold(labels[i].name) == key
  }

  lemma HasMore(init: seq<Label>, last: Label, key: string)
    ensures Has(init + [last], key) <==> Has(init, key) || Fold(last.name) == key
  {
    hide Fold;
    var all := init + [last];
    assert all[|init|] == last && forall i :: 0 <= i < |init| ==> all[i] == init[i];
  }

  /** The table's names are those in the list. */
  lemma {:induction false} TableHas(labels: seq<Label>, key: string)
    ensures key in TableOf(labels) <==> Has(labels, key)
    decreases |labels|
  {
    hide Fold, Has;
    if labels == [] {
      HasNone(key);
    } else {
      var init, last := labels[..|labels| - 1], labels[|labels| - 1];
      assert labels == init + [last];
      HasMore(init, last, key);
      TableHas(init, key);
    }
  }

  lemma HasNone(key: string)
    ensures !Has([], key)
  {
  }

  lemma FirstDiffer(init: seq<Label>, last: Label)
    requires NamesDiffer(init + [last])
    ensures NamesDiffer(init) && !Has(init, Fold(last.name))
  {
    hide Fold;
    var all := init + [last];
    assert all[|init|] == last && forall i :: 0 <= i < |init| ==> all[i] == init[i];
  }

  /** Different names have an entry each. */
  lemma {:induction false} TableSize(labels: seq<Label>)
    requires NamesDiffer(labels)
    ensures |TableOf(labels)| == |labels|
    decreases |labels|
  {
    hide Fold, Has, NamesDiffer;
    if labels != [] {
      var init, last := labels[..|labels| - 1], labels[|labels| - 1];
      assert labels == init + [last];
      FirstDiffer(init, last);
      TableHas(init, Fold(last.name));
      TableSize(init);
    }
  }

  lemma {:induction false} ValueAt(labels: seq<Label>, i: nat)
    requires NamesDiffer(labels) && i < |labels|
    ensures Fold(labels[i].name) in TableOf(labels) && TableOf(labels)[Fold(labels[i].name)] == labels[i].value
    decreases |labels|
  {
    hide Fold, Has, NamesDiffer;
    var init, last := labels[..|labels| - 1], labels[|labels| - 1];
    assert labels == init + [last];
    FirstDiffer(init, last);
    if i < |init| {
      ValueAt(init, i);
      TableHas(init, Fold(last.name));
    }
  }

  lemma {:induction false} MoreNames(labels: seq<Label>, l: Label)
    requires NamesDiffer(labels) && !Has(labels, Fold(l.name))
    ensures NamesDiffer(labels + [l]) && TableOf(labels + [l]) == TableOf(labels)[Fold(l.name) := l.value]
  {
    hide Fold;
    assert (labels + [l])[..|labels|] == labels;
  }

  /** Comparison without regard to letter case: 0 exactly for names that fold to one. */
  method CompareNames(a: string, b: string) returns (r: int)
    ensures r == 0 <==> Fold(a) == Fold(b)
  {
    var i := 0;
    while i < |a| && i < |b|
      invariant 0 <= i <= |a| && i <= |b|
      invariant forall k :: 0 <= k < i ==> ToLower(a[k]) == ToLower(b[k])
    {
      var x, y := ToLower(a[i]), ToLower(b[i]);
      if x != y {
        assert Fold(a)[i] != Fold(b)[i];
        return x as int - y as int;
      }
      i := i + 1;
    }
    r := (if i < |a| then 1 else 0) - (if i < |b| then 1 else 0);
    assert |a| == |b| ==> Fold(a) == Fold(b);
  }

  class Asm {
    var labels: seq<Label>
    var lines: seq<Placed>
    var pc: nat
    var errorCount: nat
    const image: array<Word>
    const used: array<bool>

    constructor ()
      ensures Fresh() && fresh(image) && fresh(used)
    {
      labels, lines, pc, errorCount := [], [], 0, 0;
      image := new Word[MaxWords](i => 0);
      used := new bool[MaxWords](i => false);
    }

    ghost predicate Valid()
      reads this
    {
      image.Length == MaxWords && used.Length == MaxWords && pc <= MaxWords && NamesDiffer(labels)
    }

    /** Nothing assembled yet. */
    ghost predicate Fresh()
      reads this, image, used
    {
      Valid() && State1() == Start1 && Written() == map[]
    }

    function Table(): Symbols
      reads this
    {
      TableOf(labels)
    }

    ghost function State1(): Pass1
      reads this
    {
      Pass1(Table(), lines, pc, errorCount)
    }

    ghost function Written(): map<int, Word>
      reads image, used
      requires image.Length == MaxWords && used.Length == MaxWords
    {
      map a | 0 <= a < MaxWords && used[a] :: image[a]
    }

    /** The index of the label of that name in any letter case, or -1. */
    method FindLabel(name: string) returns (k: int)
      requires Valid()
      ensures k == -1 <==> Fold(name) !in Table()
      ensures k != -1 ==> 0 <= k < |labels| && Fold(labels[k].name) == Fold(name) && Table()[Fold(name)] == labels[k].value
    {
      hide Fold, TableOf;
      TableHas(labels, Fold(name));
      k := 0;
      while k < |labels|
        invariant 0 <= k <= |labels|
        invariant forall i :: 0 <= i < k ==> Fold(labels[i].name) != Fold(name)
      {
        var r := CompareNames(labels[k].name, name);
        if r == 0 {
          ValueAt(labels, k);
          return;
        }
        k := k + 1;
      }
      k := -1;
    }

    method AddLabel(name: string)
      requires Valid()
      modifies this`labels, this`errorCount
      ensures Valid() && State1() == Bs9Asm.AddLabel(old(State1()), name)
    {
      hide Fold, TableOf, NamesDiffer, Has;
      TableHas(labels, Fold(name));
      TableSize(labels);
      var k := FindLabel(name);
      if k >= 0 || |labels| >= MaxLabels {
        errorCount := errorCount + 1;
      } else {
        MoreNames(labels, Label(name, pc % 0x10000));
        labels := labels + [Label(name, pc % 0x10000)];
      }
    }

    method PlaceLine(s: Stmt)
      requires Valid()
      modifies this`lines, this`pc, this`errorCount
      ensures Valid() && State1() == Place(old(State1()), s)
    {
      if |lines| >= MaxLines {
        errorCount := errorCount + 1;
        return;
      }
      if s.Org? {
        var a := Eval(Table(), s.e);
        if a.None? || a.value < 0 || a.value >= MaxWords {
          errorCount := errorCount + 1;
        } else {
          pc := a.value;
          lines := lines + [Placed(s, a.value, 0)];
        }
        return;
      }
      var n := Reserved(Table(), s);
      var w := 0;
      if n.None? {
        errorCount := errorCount + 1;
      } else {
        w := n.value;
      }
      lines := lines + [Placed(s, pc % 0x10000, w)];
      if pc + w > MaxWords {
        errorCount := errorCount + 1;
      } else {
        pc := pc + w;
      }
    }

    method FirstPass(src: seq<SrcLine>) returns (ok: bool)
      requires Valid() && State1() == Start1
      modifies this`labels, this`lines, this`pc, this`errorCount
      ensures Valid() && State1() == First(src)
      ensures ok <==> First(src).errors == 0
    {
      for i := 0 to |src|
        invariant Valid() && State1() == First(src[..i])
      {
        var line := src[i];
        ghost var before := State1();
        var k := 0;
        while k < |line.labels|
          invariant 0 <= k <= |line.labels| && Valid()
          invariant AddLabels(before, line.labels) == AddLabels(State1(), line.labels[k..])
        {
          assert line.labels[k..][1..] == line.labels[k + 1..];
          AddLabel(line.labels[k]);
          k := k + 1;
        }
        if line.stmt.Some? {
          PlaceLine(line.stmt.value);
        }
        assert src[..i + 1][..i] == src[..i];
      }
      assert src[..|src|] == src;
      ok := errorCount == 0;
    }

    method EmitWord(addr: int, v: Word)
      requires Valid()
      modifies this`errorCount, image, used
      ensures Valid()
      ensures Pass2(Written(), errorCount) == Bs9Asm.EmitWord(Pass2(old(Written()), old(errorCount)), addr, v)
    {
      var a := addr % 0x10000;
      if used[a] {
        errorCount := errorCount + 1;
      } else {
        image[a], used[a] := v, true;
      }
    }

    method EmitDwLine(addr: Word, es: seq<Sum>)
      requires Valid()
      modifies this`errorCount, image, used
      ensures Valid()
      ensures Pass2(Written(), errorCount) == EmitDw(Pass2(old(Written()), old(errorCount)), Table(), addr, es)
    {
      for k := 0 to |es|
        invariant Valid()
        invariant EmitDw(Pass2(old(Written()), old(errorCount)), Table(), addr, es) ==
                  EmitDw(Pass2(Written(), errorCount), Table(), addr + k, es[k..])
      {
        ghost var st := Pass2(Written(), errorCount);
        assert es[k..][1..] == es[k + 1..] && es[k..][0] == es[k];
        var v := WordValue(Table(), es[k]);
        if v.None? {
          errorCount := errorCount + 1;
        } else {
          EmitWord(addr + k, v.value);
        }
        assert EmitDw(st, Table(), addr + k, es[k..]) ==
               EmitDw(Pass2(Written(), errorCount), Table(), addr + (k + 1), es[k + 1..]);
      }
    }

    method EmitFillLine(addr: Word, n: nat, v: Word)
      requires Valid()
      modifies this`errorCount, image, used
      ensures Valid()
      ensures Pass2(Written(), errorCount) == EmitFill(Pass2(old(Written()), old(errorCount)), addr, n, v)
    {
      for k := 0 to n
        invariant Valid()
        invariant EmitFill(Pass2(old(Written()), old(errorCount)), addr, n, v) ==
                  EmitFill(Pass2(Written(), errorCount), addr + k, n - k, v)
      {
        EmitWord(addr + k, v);
      }
    }

    method EmitLine(p: Placed)
      requires Valid()
      modifies this`errorCount, image, used
      ensures Valid()
      ensures Pass2(Written(), errorCount) == Line2(Pass2(old(Written()), old(errorCount)), Table(), p)
    {
      hide EncodeGeneric, EncodeSpecial, EncodeJmp, EncodeAr0;
      match p.stmt
      case Org(_) =>
      case EndDir =>
      case Dw(es) =>
        EmitDwLine(p.addr, es);
      case Fill(args) =>
        var n := Reserved(Table(), p.stmt);
        var v := if n.None? then None else FillValue(Table(), args);
        if n.None? || v.None? {
          errorCount := errorCount + 1;
        } else {
          EmitFillLine(p.addr, n.value, v.value);
        }
      case Code(mn, cond, ops) =>
        match Encode(Table(), p.addr, mn, cond, ops)
        case Enc(w) => EmitWord(p.addr, w);
        case Rejected => errorCount := errorCount + 1;
        case Dropped =>
    }

    method SecondPass() returns (ok: bool)
      requires Valid()
      modifies this`errorCount, image, used
      ensures Valid()
      ensures var st := Second(Pass2(old(Written()), old(errorCount)), Table(), lines);
              Written() == st.mem && errorCount == st.errors && (ok <==> st.errors == 0)
    {
      for i := 0 to |lines|
        invariant Valid()
        invariant Pass2(Written(), errorCount) ==
                  Second(Pass2(old(Written()), old(errorCount)), Table(), lines[..i])
      {
        EmitLine(lines[i]);
        assert lines[..i + 1][..i] == lines[..i];
      }
      assert lines[..|lines|] == lines;
      ok := errorCount == 0;
    }

    method Output() returns (words: seq<Word>)
      requires Valid()
      ensures words == Image(Written())
    {
      var highest := 0;
      for i := 0 to MaxWords
        invariant highest == Highest(Written(), i)
      {
        if used[i] {
          highest := i + 1;
        }
      }
      HighestIs(Written(), MaxWords);
      words := [];
      for i := 0 to highest
        invariant words == Image(Written())[..i]
      {
        words := words + [if used[i] then image[i] else 0];
      }
    }

    /** Both passes and the output. */
    method Run(src: seq<SrcLine>) returns (words: Option<seq<Word>>)
      requires Fresh()
      modifies this, image, used
      ensures words == Assemble(src)
    {
      words := None;
      var ok := FirstPass(src);
      if ok {
        ok := SecondPass();
        if ok {
          var out := Output();
          words := Some(out);
        }
      }
    }
  }
}
