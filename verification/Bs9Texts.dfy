/** The texts the compiler gives its labels, and when they differ. */
module Bs9Texts {
  import opened Words
  import opened Bs9Isa
  import opened Bs9Ops
  import opened Bs9Gen
  import opened Bs9Source
  import opened Bs9Lower
  import opened Bs9Layout
  import opened Bs9Defined
  import opened Bs9Link
  import opened Options
  import opened Bs9Compile
  import opened Bs9ParseProgram
  import Asm = Bs9Asm

  // ----- decimal numbers -----

  function Digit(n: nat): char
    requires n < 10
  {
    ['0', '1', '2', '3', '4', '5', '6', '7', '8', '9'][n]
  }

  function Decimal(n: nat): string { if n < 10 then [Digit(n)] else Decimal(n / 10) + [Digit(n % 10)] }

  /** At least four digits. */
  function Padded(s: string): string
    decreases 4 - |s|
  {
    if |s| >= 4 then s else Padded("0" + s)
  }

  function Number(n: nat): string { Padded(Decimal(n)) }

  function DigitValue(c: char): nat { if '0' <= c <= '9' then c as nat - '0' as nat else 0 }

  function ValueOf(s: string): nat { if s == "" then 0 else 10 * ValueOf(s[..|s| - 1]) + DigitValue(s[|s| - 1]) }

  lemma {:induction false} ValueSnoc(s: string, c: char)
    ensures ValueOf(s + [c]) == 10 * ValueOf(s) + DigitValue(c)
  {
    assert (s + [c])[..|s|] == s;
  }

  lemma DigitIs(n: nat)
    requires n < 10
    ensures DigitValue(Digit(n)) == n && IsDigit(Digit(n))
  {
  }

  lemma {:induction false} DecimalValue(n: nat)
    ensures ValueOf(Decimal(n)) == n && Decimal(n) != "" && IsDigit(Decimal(n)[|Decimal(n)| - 1])
  {
    hide Digit, DigitValue, ValueOf, IsDigit;
    var q, d := n / 10, n % 10;
    DigitIs(d);
    if n < 10 {
      ValueSnoc("", Digit(n));
      assert "" + [Digit(n)] == Decimal(n);
      EmptyValue();
    } else {
      DecimalValue(q);
      assert Decimal(n) == Decimal(q) + [Digit(d)];
      ValueSnoc(Decimal(q), Digit(d));
    }
  }

  lemma EmptyValue()
    ensures ValueOf("") == 0
  {
  }

  predicate IsDigit(c: char) { '0' <= c <= '9' }

  lemma {:induction false} LeadingZero(s: string)
    ensures ValueOf("0" + s) == ValueOf(s)
    decreases |s|
  {
    if s == "" {
      assert "0" + s == "" + ['0'];
      ValueSnoc("", '0');
    } else {
      var init, c := s[..|s| - 1], s[|s| - 1];
      assert "0" + s == ("0" + init) + [c] && s == init + [c];
      LeadingZero(init);
      ValueSnoc("0" + init, c);
      ValueSnoc(init, c);
    }
  }

  lemma {:induction false} PaddedValue(s: string)
    requires s != ""
    ensures ValueOf(Padded(s)) == ValueOf(s) && Padded(s) != "" && Padded(s)[|Padded(s)| - 1] == s[|s| - 1]
    decreases 4 - |s|
  {
    if |s| < 4 {
      LeadingZero(s);
      PaddedValue("0" + s);
      assert ("0" + s)[|s|] == s[|s| - 1];
    }
  }

  lemma NumberIs(n: nat)
    ensures ValueOf(Number(n)) == n && Number(n) != "" && IsDigit(Number(n)[|Number(n)| - 1])
  {
    DecimalValue(n);
    PaddedValue(Decimal(n));
  }

  // ----- label texts -----

  /** The text of a label. */
  function TextOf(l: Bs9Ops.Label): string {
    match l
    case Start => "_start"
    case Func(name) => name
    case End(name) => "__" + name + "_ret"
    case Else(n) => "__else_" + Number(n)
    case IfEnd(n) => "__ifend_" + Number(n)
    case Top(n) => "__while_" + Number(n)
    case Wend(n) => "__wend_" + Number(n)
  }

  /** A name that cannot be mistaken for a label of the compiler's own, in any letter case: those start with an
      underscore and end with a t or a digit. */
  predicate PlainName(name: string) { name == "" || name[0] != '_' || !OwnEnd(name[|name| - 1]) }

  predicate OwnEnd(c: char) { IsDigit(c) || Asm.ToLower(c) == 't' }

  predicate PlainLabel(l: Bs9Ops.Label) { l.Func? ==> PlainName(l.name) }

  predicate Generated(l: Bs9Ops.Label) { l.Else? || l.IfEnd? || l.Top? || l.Wend? }

  /** What a generated label starts with. */
  function Prefix(l: Bs9Ops.Label): string
    requires Generated(l)
  {
    match l
    case Else(_) => "__else_"
    case IfEnd(_) => "__ifend_"
    case Top(_) => "__while_"
    case _ => "__wend_"
  }

  function NumberOf(l: Bs9Ops.Label): nat
    requires Generated(l)
  {
    match l
    case Else(n) => n
    case IfEnd(n) => n
    case Top(n) => n
    case Wend(n) => n
  }

  // ----- folded texts -----

  function KeyOf(l: Bs9Ops.Label): string { Key(l, TextOf) }

  lemma FoldAt(s: string)
    ensures forall i :: 0 <= i < |s| ==> Asm.Fold(s)[i] == Asm.ToLower(s[i])
  {
  }

  lemma FoldAppend(a: string, b: string)
    ensures Asm.Fold(a + b) == Asm.Fold(a) + Asm.Fold(b)
  {
  }

  lemma {:induction false} FoldValue(s: string)
    ensures ValueOf(Asm.Fold(s)) == ValueOf(s)
  {
    hide ValueOf, Asm.Fold;
    if s != "" {
      var init, c := s[..|s| - 1], s[|s| - 1];
      FoldValue(init);
      assert s == init + [c];
      FoldAppend(init, [c]);
      FoldAt([c]);
      assert Asm.Fold([c]) == [Asm.ToLower(c)];
      ValueSnoc(init, c);
      ValueSnoc(Asm.Fold(init), Asm.ToLower(c));
      LowerDigit(c);
    } else {
      assert Asm.Fold(s) == s;
    }
  }

  lemma LowerDigit(c: char)
    ensures DigitValue(Asm.ToLower(c)) == DigitValue(c) && (IsDigit(c) ==> Asm.ToLower(c) == c)
  {
  }

  lemma PrefixFold(l: Bs9Ops.Label)
    requires Generated(l)
    ensures Asm.Fold(Prefix(l)) == Prefix(l) && |Prefix(l)| >= 7 && Prefix(l)[0] == '_' && Prefix(l)[1] == '_'
  {
    var p := Prefix(l);
    FoldAt(p);
    assert forall i :: 0 <= i < |p| ==> Asm.ToLower(p[i]) == p[i];
  }

  lemma GeneratedKey(l: Bs9Ops.Label)
    requires Generated(l)
    ensures KeyOf(l) == Prefix(l) + Asm.Fold(Number(NumberOf(l)))
    ensures |KeyOf(l)| > |Prefix(l)| >= 7 && IsDigit(KeyOf(l)[|KeyOf(l)| - 1]) && KeyOf(l)[0] == '_' && KeyOf(l)[1] == '_'
  {
    hide Number, ValueOf, Asm.Fold;
    var number := Number(NumberOf(l));
    NumberIs(NumberOf(l));
    PrefixFold(l);
    assert TextOf(l) == Prefix(l) + number;
    FoldAppend(Prefix(l), number);
    FoldAt(number);
    LowerDigit(number[|number| - 1]);
  }

  /** The prefixes differ early. */
  lemma PrefixesDiffer(l: Bs9Ops.Label, m: Bs9Ops.Label)
    requires Generated(l) && Generated(m) && |Prefix(l)| >= 7 && |Prefix(m)| >= 7
    requires Prefix(l)[2] == Prefix(m)[2] && Prefix(l)[3] == Prefix(m)[3]
    ensures Prefix(l) == Prefix(m)
  {
  }

  lemma GeneratedApart(l: Bs9Ops.Label, m: Bs9Ops.Label)
    requires Generated(l) && Generated(m) && KeyOf(l) == KeyOf(m)
    ensures l == m
  {
    hide Number, TextOf, ValueOf, Asm.Fold, Prefix, KeyOf;
    GeneratedKey(l);
    GeneratedKey(m);
    assert Prefix(l)[2] == KeyOf(l)[2] && Prefix(l)[3] == KeyOf(l)[3];
    assert Prefix(m)[2] == KeyOf(m)[2] && Prefix(m)[3] == KeyOf(m)[3];
    PrefixesDiffer(l, m);
    var p := |Prefix(l)|;
    assert Asm.Fold(Number(NumberOf(l))) == KeyOf(l)[p..] == KeyOf(m)[p..] == Asm.Fold(Number(NumberOf(m)));
    NumberIs(NumberOf(l));
    NumberIs(NumberOf(m));
    FoldValue(Number(NumberOf(l)));
    FoldValue(Number(NumberOf(m)));
    SamePrefix(l, m);
  }

  lemma SamePrefix(l: Bs9Ops.Label, m: Bs9Ops.Label)
    requires Generated(l) && Generated(m) && Prefix(l) == Prefix(m) && NumberOf(l) == NumberOf(m)
    ensures l == m
  {
  }

  lemma EndKey(name: string)
    ensures var k := KeyOf(End(name));
            && |k| >= 6 && k[0] == '_' && k[1] == '_' && k[|k| - 1] == 't' && k[2..|k| - 4] == Asm.Fold(name)
  {
    hide Asm.Fold;
    var text := TextOf(End(name));
    assert text == "__" + name + "_ret";
    FoldAppend("__" + name, "_ret");
    FoldAppend("__", name);
    FoldAt("__");
    FoldAt("_ret");
    assert Asm.Fold("__") == "__" && Asm.Fold("_ret") == "_ret";
  }

  lemma FuncKey(name: string)
    requires PlainName(name)
    ensures var k := KeyOf(Func(name));
            && k == Asm.Fold(name) && (k == "" || k[0] != '_' || (k[|k| - 1] != 't' && !IsDigit(k[|k| - 1])))
  {
    hide Asm.Fold;
    FoldAt(name);
    if name != "" {
      LowerDigit(name[|name| - 1]);
      NotUnderscore(name[0]);
      NotUnderscore(name[|name| - 1]);
    }
  }

  lemma NotUnderscore(c: char)
    ensures Asm.ToLower(c) == '_' <==> c == '_'
    ensures IsDigit(Asm.ToLower(c)) <==> IsDigit(c)
  {
  }

  lemma StartKey()
    ensures KeyOf(Start) == "_start"
  {
    FoldAt("_start");
    assert forall i :: 0 <= i < 6 ==> Asm.ToLower("_start"[i]) == "_start"[i];
  }

  /** One label, or functions whose names differ in letter case only, or their return labels. */
  predicate SameInCase(l: Bs9Ops.Label, m: Bs9Ops.Label) {
    || l == m
    || (l.Func? && m.Func? && Asm.Fold(l.name) == Asm.Fold(m.name))
    || (l.End? && m.End? && Asm.Fold(l.name) == Asm.Fold(m.name))
  }

  /** With plain function names the assembler takes two labels for one in these cases only. */
  lemma KeysApart(l: Bs9Ops.Label, m: Bs9Ops.Label)
    requires PlainLabel(l) && PlainLabel(m)
    ensures KeyOf(l) == KeyOf(m) <==> SameInCase(l, m)
  {
    hide Number, Asm.Fold, KeyOf, PlainName;
    LabelKey(l);
    LabelKey(m);
    if Generated(l) && Generated(m) && KeyOf(l) == KeyOf(m) { GeneratedApart(l, m); }
    if l.End? && m.End? && Asm.Fold(l.name) == Asm.Fold(m.name) { EndKeys(l.name, m.name); }
  }

  lemma EndKeys(a: string, b: string)
    requires Asm.Fold(a) == Asm.Fold(b)
    ensures KeyOf(End(a)) == KeyOf(End(b))
  {
    hide Asm.Fold;
    forall name: string
      ensures KeyOf(End(name)) == Asm.Fold("__") + Asm.Fold(name) + Asm.Fold("_ret")
    {
      assert TextOf(End(name)) == "__" + name + "_ret";
      FoldAppend("__" + name, "_ret");
      FoldAppend("__", name);
    }
  }

  /** What the names of the kinds of labels look like to the assembler. */
  lemma LabelKey(l: Bs9Ops.Label)
    requires PlainLabel(l)
    ensures var k := KeyOf(l);
            && (l.Start? ==> k == "_start")
            && (Generated(l) ==> |k| > 2 && k[0] == '_' && k[1] == '_' && IsDigit(k[|k| - 1]))
            && (l.End? ==> |k| >= 6 && k[0] == '_' && k[1] == '_' && k[|k| - 1] == 't'
                           && k[2..|k| - 4] == Asm.Fold(l.name))
            && (l.Func? ==> k == Asm.Fold(l.name)
                            && (k == "" || k[0] != '_' || (k[|k| - 1] != 't' && !IsDigit(k[|k| - 1]))))
  {
    hide Number, Asm.Fold, KeyOf, PlainName, Prefix;
    match l
    case Start => StartKey();
    case Func(name) => FuncKey(name);
    case End(name) => EndKey(name);
    case _ => GeneratedKey(l);
  }

  /** With plain function names different labels have different texts. */
  lemma TextsApart(l: Bs9Ops.Label, m: Bs9Ops.Label)
    requires PlainLabel(l) && PlainLabel(m) && TextOf(l) == TextOf(m)
    ensures l == m
  {
    hide Number, Asm.Fold, PlainName;
    KeysApart(l, m);
    if l.End? && m.End? {
      assert ("__" + l.name + "_ret")[2..|l.name| + 2] == l.name;
      assert ("__" + m.name + "_ret")[2..|m.name| + 2] == m.name;
    }
  }

  /** The name a comparison leaves in the text can only be a function's. */
  lemma StrayKey(l: Bs9Ops.Label)
    requires PlainLabel(l)
    ensures KeyOf(l) == Asm.Fold(LeftoverName) <==> l.Func? && Asm.Fold(l.name) == Asm.Fold(LeftoverName)
  {
    hide Number, Asm.Fold, KeyOf, PlainName;
    LabelKey(l);
    FoldAt(LeftoverName);
    assert LeftoverName[|LeftoverName| - 1] == 'e';
    assert LeftoverName[1] == '_' && LeftoverName[2] == 'b';
  }

  predicate PlainNames(funcs: seq<Function>) { forall f :: f in funcs ==> PlainName(f.name) }

  lemma {:induction false} MarksPlainNames(funcs: seq<Function>, top: Word, l: Bs9Ops.Label)
    requires FewParams(funcs) && PlainNames(funcs) && l in Marks(CompProgram(funcs, top))
    ensures PlainLabel(l)
  {
    hide Marks, CompProgram, PlainName;
    if l.Func? { FunctionLabels(funcs, top, l.name); }
  }

  /** With plain names the compiler's texts tell its labels apart, and the called names from all of them. */
  lemma {:induction false} PlainNamesDistinct(funcs: seq<Function>, top: Word)
    requires FewParams(funcs) && PlainNames(funcs)
    ensures Distinct(Marks(CompProgram(funcs, top)), TextOf)
    ensures (forall g :: g in Called(funcs) ==> PlainName(g)) ==> CallsApart(funcs, top, TextOf)
  {
    hide Marks, CompProgram, Called, TextOf, PlainName;
    var ls := Marks(CompProgram(funcs, top));
    forall l, m | l in ls && m in ls && TextOf(l) == TextOf(m)
      ensures l == m
    {
      MarksPlainNames(funcs, top, l);
      MarksPlainNames(funcs, top, m);
      TextsApart(l, m);
    }
    if forall g :: g in Called(funcs) ==> PlainName(g) {
      forall g, l | g in Called(funcs) && l in ls && TextOf(l) == TextOf(Func(g))
        ensures l == Func(g)
      {
        MarksPlainNames(funcs, top, l);
        TextsApart(l, Func(g));
      }
    }
  }

  /** So such a program is compiled exactly when main and every called function are declared. */
  lemma {:induction false} PlainNamesLower(funcs: seq<Function>, top: Word)
    requires FewParams(funcs) && PlainNames(funcs) && forall g :: g in Called(funcs) ==> PlainName(g)
    ensures ItemsOf(funcs, top, TextOf).Some? <==> forall g :: g in Called(funcs) ==> Declares(funcs, g)
  {
    hide Marks, CompProgram, Called, TextOf, PlainName, ItemsOf, Declares, CallsApart;
    PlainNamesDistinct(funcs, top);
    LowersIfDeclared(funcs, top, TextOf);
  }

  // ----- the printed text -----

  /** No two functions' names are equal up to letter case. */
  predicate NamesFoldApart(funcs: seq<Function>) {
    forall i, j :: 0 <= i < j < |funcs| ==> Asm.Fold(funcs[i].name) != Asm.Fold(funcs[j].name)
  }

  /** The function and return labels are those of declared functions. */
  lemma {:induction false} MarksDeclared(funcs: seq<Function>, top: Word, l: Bs9Ops.Label)
    requires FewParams(funcs) && l in Marks(CompProgram(funcs, top)) && (l.Func? || l.End?)
    ensures Declares(funcs, l.name)
  {
    hide AllUnitOps, UnitsOf, Marks, StartOps, Bs9Layout.Labels;
    var us := UnitsOf(funcs);
    UnitsFew(funcs);
    MarksStub(top);
    MarksAppend([Mark(Start)] + StartOps(top), AllUnitOps(us));
    MarksUnits(funcs, |funcs|);
    assert us[..|funcs|] == us && funcs[..|funcs|] == funcs;
    assert Earlier(l, funcs, |funcs|);
  }

  /** Names that are the same to the assembler are those of two functions. */
  lemma {:induction false} LabelsApart(funcs: seq<Function>, top: Word)
    requires FewParams(funcs) && PlainNames(funcs)
    ensures var ls := Marks(CompProgram(funcs, top));
            NamesApart(ls, TextOf) <==> |ls| <= Asm.MaxLabels && NamesFoldApart(funcs)
  {
    hide Marks, CompProgram, KeyOf, TextOf, PlainName, Key, Asm.Fold, NoDup, NamesFoldApart, NamesApart, FirstOfName;
    ProgramLabels(funcs, top);
    if NamesApart(Marks(CompProgram(funcs, top)), TextOf) {
      ApartNames(funcs, top);
    }
    if |Marks(CompProgram(funcs, top))| <= Asm.MaxLabels && NamesFoldApart(funcs) {
      ApartLabels(funcs, top);
    }
  }

  lemma {:induction false} ApartNames(funcs: seq<Function>, top: Word)
    requires FewParams(funcs) && PlainNames(funcs) && NamesApart(Marks(CompProgram(funcs, top)), TextOf)
    ensures NamesFoldApart(funcs) && |Marks(CompProgram(funcs, top))| <= Asm.MaxLabels
  {
    hide Marks, CompProgram, KeyOf, TextOf, PlainName, Asm.Fold, Key;
    var ls := Marks(CompProgram(funcs, top));
    ProgramLabels(funcs, top);
    forall i, j | 0 <= i < j < |funcs|
      ensures Asm.Fold(funcs[i].name) != Asm.Fold(funcs[j].name)
    {
      var l, m := Func(funcs[i].name), Func(funcs[j].name);
      FunctionLabels(funcs, top, l.name);
      FunctionLabels(funcs, top, m.name);
      assert funcs[i] in funcs && funcs[j] in funcs && FirstOfName(funcs, j);
      var p, q :| 0 <= p < |ls| && ls[p] == l && 0 <= q < |ls| && ls[q] == m;
      KeysApart(l, m);
      KeyIs(l);
      KeyIs(m);
      assert p < q ==> Key(ls[p], TextOf) != Key(ls[q], TextOf);
      assert q < p ==> Key(ls[q], TextOf) != Key(ls[p], TextOf);
    }
  }

  lemma KeyIs(l: Bs9Ops.Label)
    ensures Key(l, TextOf) == KeyOf(l)
  {
  }

  lemma {:induction false} ApartLabels(funcs: seq<Function>, top: Word)
    requires FewParams(funcs) && PlainNames(funcs) && NamesFoldApart(funcs)
    requires |Marks(CompProgram(funcs, top))| <= Asm.MaxLabels
    ensures NamesApart(Marks(CompProgram(funcs, top)), TextOf)
  {
    hide Marks, CompProgram, KeyOf, TextOf, PlainName, Asm.Fold, Key;
    var ls := Marks(CompProgram(funcs, top));
    assert forall k :: 0 <= k < |funcs| ==> FirstOfName(funcs, k);
    ProgramLabels(funcs, top);
    forall p, q | 0 <= p < q < |ls|
      ensures Key(ls[p], TextOf) != Key(ls[q], TextOf)
    {
      var l, m := ls[p], ls[q];
      assert l in ls && m in ls;
      MarksPlainNames(funcs, top, l);
      MarksPlainNames(funcs, top, m);
      KeysApart(l, m);
      KeyIs(l);
      KeyIs(m);
      if SameInCase(l, m) {
        MarksDeclared(funcs, top, l);
        MarksDeclared(funcs, top, m);
        SameFunction(funcs, l.name, m.name);
      }
    }
  }

  lemma SameFunction(funcs: seq<Function>, a: string, b: string)
    requires NamesFoldApart(funcs) && Declares(funcs, a) && Declares(funcs, b) && Asm.Fold(a) == Asm.Fold(b)
    ensures a == b
  {
    hide Asm.Fold;
    var i :| 0 <= i < |funcs| && funcs[i].name == a;
    var j :| 0 <= j < |funcs| && funcs[j].name == b;
  }

  /** A function called like the name that comparisons leave in the text. */
  predicate IsStray(f: Function) { Asm.Fold(f.name) == Asm.Fold(LeftoverName) }

  /** Without such a function the name has no value. */
  lemma {:induction false} NoStray(funcs: seq<Function>, top: Word, items: seq<Item>)
    requires FewParams(funcs) && PlainNames(funcs) && Named(items) == Marks(CompProgram(funcs, top))
    requires NamesApart(Named(items), TextOf) && StrayLabel(Symbols(items, TextOf)).Some?
    ensures exists f :: f in funcs && IsStray(f)
  {
    hide CompProgram, Symbols, Marks, TextOf, PlainName, Asm.Fold, Key, NamesApart, Named, KeyOf;
    SymbolNames(items, TextOf);
    var i :| 0 <= i < |Named(items)| && Key(Named(items)[i], TextOf) == Asm.Fold(LeftoverName);
    var l := Named(items)[i];
    MarksPlainNames(funcs, top, l);
    StrayKey(l);
    KeyIs(l);
    MarksDeclared(funcs, top, l);
  }

  /** With it the value is the function's address, which is behind the start-up code. */
  lemma {:induction false} StrayAt(funcs: seq<Function>, top: Word, f: Function)
    requires FewParams(funcs) && PlainNames(funcs) && ItemsOf(funcs, top, TextOf).Some? && f in funcs && IsStray(f)
    requires |CodeOf(ItemsOf(funcs, top, TextOf).value)| <= 0xFFFF && NamesApart(Marks(CompProgram(funcs, top)), TextOf)
    ensures var tab, a := TableOf(funcs, top, TextOf), StrayLabel(Symbols(ItemsOf(funcs, top, TextOf).value, TextOf));
            Func(f.name) in tab && tab[Func(f.name)] >= 15 && a == Some(tab[Func(f.name)])
  {
    hide CompProgram, CodeOf, Symbols, Marks, TextOf, PlainName, Asm.Fold, Key, NamesApart, EmitOps, Record, Size, Generated,
      HasLeftover, KeyOf, Compares;
    var ops, tab, l := CompProgram(funcs, top), TableOf(funcs, top, TextOf), Func(f.name);
    FunctionLabels(funcs, top, f.name);
    InMarks(ops, l);
    var k :| 0 <= k < |ops| && ops[k] == Mark(l);
    MadeProgram(funcs, top);
    PassesAgree(ops, k, 0, tab, TextOf);
    SymbolsAgree(ops, k, TextOf);
    BehindStub(funcs, top, k);
    SizeAppend(ops[..k], ops[k..]);
    assert ops[..k] + ops[k..] == ops;
    StrayKey(l);
    KeyIs(l);
  }

  /** The start-up code has fifteen words. */
  lemma {:induction false} BehindStub(funcs: seq<Function>, top: Word, k: nat)
    requires FewParams(funcs) && k < |CompProgram(funcs, top)| && CompProgram(funcs, top)[k].Mark?
    requires CompProgram(funcs, top)[k].l.Func?
    ensures Size(CompProgram(funcs, top)[..k]) >= 15
  {
    hide AllUnitOps, UnitsOf, Size, StartOps;
    UnitsFew(funcs);
    var stub, rest := [Mark(Start)] + StartOps(top), AllUnitOps(UnitsOf(funcs));
    var ops := CompProgram(funcs, top);
    assert ops == stub + rest;
    StubMarks(top);
    assert forall i :: 0 <= i < |stub| ==> ops[i] == stub[i];
    assert ops[..k] == stub + rest[..k - |stub|];
    SizeAppend(stub, rest[..k - |stub|]);
  }

  lemma StubMarks(top: Word)
    ensures var stub := [Mark(Start)] + StartOps(top);
            && Size(stub) == 15 && forall k :: 1 <= k < |stub| ==> !stub[k].Mark?
  {
    var init, tail := Const(top) + [CpyRR(SP, 0)], [Call(Func("main")), Halt];
    assert Size([Mark(Start)]) == 0 by { assert [Mark(Start)][1..] == []; }
    assert Size(tail) == 10 by { assert tail[1..] == [Halt] && tail[1..][1..] == []; }
    SizeAppend(Plain(init), tail);
    SizeAppend([Mark(Start)], StartOps(top));
  }

  lemma {:induction false} StrayValue(funcs: seq<Function>, top: Word)
    requires FewParams(funcs) && PlainNames(funcs) && ItemsOf(funcs, top, TextOf).Some?
    requires |CodeOf(ItemsOf(funcs, top, TextOf).value)| <= 0xFFFF && NamesApart(Marks(CompProgram(funcs, top)), TextOf)
    ensures var a := StrayLabel(Symbols(ItemsOf(funcs, top, TextOf).value, TextOf));
            a != Some(0) && (Reachable(a) <==> StrayInReach(funcs, TableOf(funcs, top, TextOf)))
  {
    hide CompProgram, CodeOf, Symbols, Marks, TextOf, PlainNames, NamesApart, EmitOps, Record, Size, Generated, HasLeftover,
      Named, StrayLabel, IsStray;
    var ops, tab := CompProgram(funcs, top), TableOf(funcs, top, TextOf);
    var items := ItemsOf(funcs, top, TextOf).value;
    MadeProgram(funcs, top);
    PassesAgree(ops, 0, 0, tab, TextOf);
    OpsRead(ops, 0, tab, TextOf, map[]);
    if StrayLabel(Symbols(items, TextOf)).Some? {
      NoStray(funcs, top, items);
      var f :| f in funcs && IsStray(f);
      StrayAt(funcs, top, f);
    }
    if StrayInReach(funcs, tab) {
      var f :| f in funcs && IsStray(f) && Func(f.name) in tab && tab[Func(f.name)] <= 122;
      StrayAt(funcs, top, f);
    }
  }

  /** With plain names the text assembles exactly when no two functions' names are equal up to letter case, there are no
      more labels than the assembler holds, and the program uses none of ==, !=, < and >=, or has a function called like
      the stray name not past address 122. Then the words are those of the code exactly in the former case. */
  lemma {:induction false} PlainNamesAssemble(funcs: seq<Function>, top: Word)
    requires FewParams(funcs) && PlainNames(funcs) && ItemsOf(funcs, top, TextOf).Some?
    requires |CodeOf(ItemsOf(funcs, top, TextOf).value)| <= 0xFFFF
    ensures var items, ls := ItemsOf(funcs, top, TextOf).value, Marks(CompProgram(funcs, top));
            var text, apart := Asm.Assemble(LinesOf(items, TextOf)), NamesFoldApart(funcs) && |ls| <= Asm.MaxLabels;
            && (text.Some? <==> apart && (!Compares(funcs) || StrayInReach(funcs, TableOf(funcs, top, TextOf))))
            && (text == Some(WordsOf(CodeOf(items))) <==> apart && !Compares(funcs))
  {
    hide CompProgram, CodeOf, Symbols, StrayLabel, Marks, TextOf, PlainNames, Compares, EmitOps, Record,
      Asm.Assemble, LinesOf, WordsOf, NamesApart, NamesFoldApart, IsStray;
    LabelsApart(funcs, top);
    ProgramAssembles(funcs, top, TextOf);
    if NamesApart(Marks(CompProgram(funcs, top)), TextOf) {
      StrayValue(funcs, top);
    }
  }

  ghost predicate StrayInReach(funcs: seq<Function>, tab: Table) {
    exists f :: f in funcs && IsStray(f) && Func(f.name) in tab && tab[Func(f.name)] <= 122
  }

  // ----- two programs -----

  /** Few words and labels, however its labels are numbered. */
  ghost predicate Small(f: Function) {
    f.params == 0 && forall n :: Size(FuncOps(f, n)) <= 200 && |Marks(FuncOps(f, n))| <= 200
  }

  lemma {:induction false} UnitsSmall(funcs: seq<Function>, k: nat)
    requires FewParams(funcs) && k <= |funcs| && forall f :: f in funcs ==> Small(f)
    ensures |UnitsOf(funcs)| == |funcs| && forall u :: u in UnitsOf(funcs) ==> u.params <= MaxArgs
    ensures var ops := AllUnitOps(UnitsOf(funcs)[..k]); Size(ops) <= k * 200 && |Marks(ops)| <= k * 200
  {
    hide UnitsOf, FuncOps, Size, Marks, UnitOps, Bs9Layout.Labels;
    UnitsFew(funcs);
    var us := UnitsOf(funcs);
    if k > 0 {
      UnitsSmall(funcs, k - 1);
      UnitIsFunc(funcs, k - 1);
      assert Small(funcs[k - 1]);
      assert us[..k][..k - 1] == us[..k - 1] && us[..k][k - 1] == us[k - 1];
      SizeAppend(AllUnitOps(us[..k - 1]), UnitOps(us[k - 1]));
      MarksAppend(AllUnitOps(us[..k - 1]), UnitOps(us[k - 1]));
    } else {
      NoOps();
    }
  }

  lemma NoOps()
    ensures Size([]) == 0 && Marks([]) == []
  {
  }

  lemma {:induction false} ProgramSmall(funcs: seq<Function>, top: Word)
    requires FewParams(funcs) && forall f :: f in funcs ==> Small(f)
    ensures var ops := CompProgram(funcs, top); Size(ops) <= 15 + |funcs| * 200 && |Marks(ops)| <= 1 + |funcs| * 200
  {
    hide UnitsOf, FuncOps, Size, Marks, AllUnitOps, StartOps, Small;
    UnitsSmall(funcs, |funcs|);
    var us := UnitsOf(funcs);
    assert us[..|funcs|] == us;
    StubMarks(top);
    MarksStub(top);
    SizeAppend([Mark(Start)] + StartOps(top), AllUnitOps(us));
    MarksAppend([Mark(Start)] + StartOps(top), AllUnitOps(us));
  }

  lemma {:induction false} SmallParts(f: Function, n: nat)
    requires f.params == 0
    ensures Size(FuncOps(f, n)) <= Size(CompStmts(f.body, f.name, n)) + 100
    ensures |Marks(FuncOps(f, n))| == |Marks(CompStmts(f.body, f.name, n))| + 2
  {
    hide Size, Marks, CompStmts, Prologue, Plain;
    var body, tail := CompStmts(f.body, f.name, n), [Mark(End(f.name)), Ret];
    var first, prol := [Mark(Func(f.name))], Plain(Prologue(f));
    assert FuncOps(f, n) == first + prol + (body + tail) && tail == [tail[0]] + [tail[1]];
    PrologueParts(f);
    OneOp(tail[0]);
    OneOp(tail[1]);
    OneOp(first[0]);
    SizeAppend([tail[0]], [tail[1]]);
    MarksAppend([tail[0]], [tail[1]]);
    SizeAppend(body, tail);
    MarksAppend(body, tail);
    SizeAppend(first, prol);
    MarksAppend(first, prol);
    SizeAppend(first + prol, body + tail);
    MarksAppend(first + prol, body + tail);
  }

  lemma OneOp(op: Op)
    ensures Size([op]) == OpSize(op) && Marks([op]) == if op.Mark? then [op.l] else []
  {
    assert [op][1..] == [];
  }

  lemma PrologueParts(f: Function)
    requires f.params == 0
    ensures Size(Plain(Prologue(f))) <= 20 && Marks(Plain(Prologue(f))) == []
  {
    hide Size, Marks, Const;
    MarksPlain(Prologue(f));
  }

  /** int name() { return 0; } */
  function Returning0(name: string): Function { Function(name, 0, 0, Cons(Return(Num(0)), Nil)) }

  lemma {:induction false} ReturnParts(name: string, n: nat)
    ensures var ops := CompStmts(Returning0(name).body, name, n); Size(ops) <= 20 && Marks(ops) == []
  {
    hide Size, Marks, Const;
    var ret: Stmt<Place> := Return(Num(0));
    assert CompStmt(ret, name, n) == Plain(Const(0)) + [Jabs(End(name))];
    assert CompStmts(Nil, name, n + LabelCount(ret)) == [];
    assert CompStmts(Cons(ret, Nil), name, n) == Plain(Const(0)) + [Jabs(End(name))];
    SizeAppend(Plain(Const(0)), [Jabs(End(name))]);
    MarksAppend(Plain(Const(0)), [Jabs(End(name))]);
    MarksPlain(Const(0));
    OneOp(Jabs(End(name)));
  }

  lemma {:induction false} Returning0Small(name: string)
    ensures Small(Returning0(name)) && CallsStmts(Returning0(name).body) == {}
  {
    hide FuncOps, Size, Marks, CompStmts;
    var f := Returning0(name);
    forall n: nat
      ensures Size(FuncOps(f, n)) <= 200 && |Marks(FuncOps(f, n))| <= 200
    {
      SmallParts(f, n);
      ReturnParts(name, n);
    }
    var e: Expr<Place> := Num(0);
    assert CallsExpr(e) == {};
    assert CallsStmt(Return(e)) == {} && CallsStmts<Place>(Nil) == {};
  }

  lemma {:induction false} NoCalls(funcs: seq<Function>)
    requires forall f :: f in funcs ==> CallsStmts(f.body) == {}
    ensures Called(funcs) == {"main"}
    decreases |funcs|
  {
    hide CallsStmts;
    if funcs != [] {
      NoCalls(funcs[..|funcs| - 1]);
      CallsOfAll(funcs);
    } else {
      assert CallsAll(funcs) == {};
    }
  }

  lemma {:induction false} CallsOfAll(funcs: seq<Function>)
    requires forall f :: f in funcs ==> CallsStmts(f.body) == {}
    ensures CallsAll(funcs) == {}
    decreases |funcs|
  {
    hide CallsStmts;
    if funcs != [] {
      CallsOfAll(funcs[..|funcs| - 1]);
    }
  }

  /** A small program with main and no calls is compiled. */
  lemma {:induction false} SmallLowers(funcs: seq<Function>, top: Word)
    requires |funcs| <= 3 && PlainNames(funcs) && Declares(funcs, "main")
    requires forall f :: f in funcs ==> Small(f) && CallsStmts(f.body) == {}
    ensures FewParams(funcs) && ItemsOf(funcs, top, TextOf).Some?
    ensures |CodeOf(ItemsOf(funcs, top, TextOf).value)| <= 0xFFFF && |Marks(CompProgram(funcs, top))| <= 601
  {
    hide CallsStmts, CompProgram, CodeOf, Marks, TextOf, EmitOps, Record, Size, PlainNames, Called;
    assert forall f :: f in funcs ==> f.params == 0;
    NoCalls(funcs);
    assert PlainName("main");
    PlainNamesLower(funcs, top);
    ProgramSmall(funcs, top);
    PassesAgree(CompProgram(funcs, top), 0, 0, TableOf(funcs, top, TextOf), TextOf);
  }

  /** int foo() { return 0; } int Foo() { return 0; } int main() { return 0; } is compiled, no function being declared
      twice, but its text does not assemble. */
  lemma {:induction false} CaseClash(top: Word)
    ensures var funcs := [Returning0("foo"), Returning0("Foo"), Returning0("main")];
            && (forall k :: 0 <= k < 3 ==> FirstOfName(funcs, k)) && PlainNames(funcs) && !Compares(funcs)
            && FewParams(funcs) && ItemsOf(funcs, top, TextOf).Some?
            && Asm.Assemble(LinesOf(ItemsOf(funcs, top, TextOf).value, TextOf)) == None
  {
    hide ItemsOf, Asm.Assemble, LinesOf, TextOf, CodeOf, Marks, CompProgram, CallsStmts, Small;
    var funcs := [Returning0("foo"), Returning0("Foo"), Returning0("main")];
    Returning0Small("foo");
    Returning0Small("Foo");
    Returning0Small("main");
    assert Declares(funcs, "main") by { assert funcs[2] in funcs; }
    SmallLowers(funcs, top);
    PlainNamesAssemble(funcs, top);
    FoldAt("foo");
    FoldAt("Foo");
    assert Asm.Fold("foo") == Asm.Fold("Foo") && funcs[0].name == "foo" && funcs[1].name == "Foo";
    NoComparison("foo");
    NoComparison("Foo");
    NoComparison("main");
  }

  lemma NoComparison(name: string)
    ensures !ComparesStmts(Returning0(name).body)
  {
    var e: Expr<Place> := Num(0);
    assert !ComparesExpr(e);
    assert !ComparesStmt(Return(e)) && !ComparesStmts<Place>(Nil);
  }

  /** int main() { if (1 == 1) { } return 0; } */
  function Testing(): Function {
    Function("main", 0, 0, Cons(If(Bin(EqOp, Num(1), Num(1)), Block(Nil)), Returning0("main").body))
  }

  lemma {:induction false} TestParts(n: nat)
    ensures var ops := CompStmts(Testing().body, "main", n); Size(ops) <= 60 && |Marks(ops)| <= 1
  {
    hide Size, Marks, Const, CompExpr;
    var e: Expr<Place> := Bin(EqOp, Num(1), Num(1));
    var s, rest := If(e, Block(Nil)), Returning0("main").body;
    ReturnParts("main", n + LabelCount(s));
    assert CompStmts(Testing().body, "main", n) == CompStmt(s, "main", n) + CompStmts(rest, "main", n + LabelCount(s));
    assert CompStmt(Block(Nil), "main", n + 2) == [] by { assert CompStmts(Nil, "main", n + 2) == []; }
    var head := CompExpr(e) + [JabsIfZero(Else(n))];
    assert CompStmt(s, "main", n) == head + [] + [Mark(Else(n))] && head + [] == head;
    EqualParts();
    OneOp(JabsIfZero(Else(n)));
    OneOp(Mark(Else(n)));
    SizeAppend(CompExpr(e), [JabsIfZero(Else(n))]);
    MarksAppend(CompExpr(e), [JabsIfZero(Else(n))]);
    SizeAppend(head, [Mark(Else(n))]);
    MarksAppend(head, [Mark(Else(n))]);
    SizeAppend(CompStmt(s, "main", n), CompStmts(rest, "main", n + LabelCount(s)));
    MarksAppend(CompStmt(s, "main", n), CompStmts(rest, "main", n + LabelCount(s)));
  }

  lemma {:induction false} EqualParts()
    ensures var ops := CompExpr(Bin(EqOp, Num(1), Num(1))); Size(ops) <= 30 && Marks(ops) == []
  {
    hide Size, Marks, Const;
    var one: Expr<Place> := Num(1);
    var e := Bin(EqOp, one, one);
    MarksExpr(e);
    assert CompExpr(one) == Plain(Const(1));
    var a, p, q, c := CompExpr(one), Plain(Push), Plain(PopLeft), BinCode(EqOp);
    assert CompExpr(e) == a + p + a + q + c && c == [c[0]] + [c[1]];
    OneOp(c[0]);
    OneOp(c[1]);
    SizeAppend([c[0]], [c[1]]);
    SizeAppend(a, p);
    SizeAppend(a + p, a);
    SizeAppend(a + p + a, q);
    SizeAppend(a + p + a + q, c);
  }

  lemma {:induction false} TestingSmall()
    ensures Small(Testing()) && CallsStmts(Testing().body) == {} && ComparesStmts(Testing().body)
  {
    hide FuncOps, Size, Marks, CompStmts;
    forall n: nat
      ensures Size(FuncOps(Testing(), n)) <= 200 && |Marks(FuncOps(Testing(), n))| <= 200
    {
      SmallParts(Testing(), n);
      TestParts(n);
    }
    Returning0Small("main");
    var one: Expr<Place> := Num(1);
    var e := Bin(EqOp, one, one);
    assert CallsExpr(one) == {} && CallsExpr(e) == {} && ComparesExpr(e);
    assert CallsStmts<Place>(Nil) == {} && CallsStmt<Place>(Block(Nil)) == {};
    assert CallsStmt(If(e, Block(Nil))) == {} && ComparesStmt(If(e, Block(Nil)));
  }

  /** The first function lies right behind the start-up code. */
  lemma {:induction false} FirstAt15(funcs: seq<Function>, top: Word)
    requires FewParams(funcs) && funcs != [] && ItemsOf(funcs, top, TextOf).Some?
    requires |CodeOf(ItemsOf(funcs, top, TextOf).value)| <= 0xFFFF && NamesApart(Marks(CompProgram(funcs, top)), TextOf)
    ensures var tab, l := TableOf(funcs, top, TextOf), Func(funcs[0].name); l in tab && tab[l] == 15
  {
    hide CodeOf, Symbols, Marks, TextOf, Key, NamesApart, EmitOps, Record, Size, Generated, HasLeftover, Compares, UnitsOf,
      AllUnitOps, StartOps, FuncOps, UnitOps, Bs9Layout.Labels;
    var ops, us, stub := CompProgram(funcs, top), UnitsOf(funcs), [Mark(Start)] + StartOps(top);
    UnitsFew(funcs);
    var rest := UnitsSplit(us, 0);
    UnitIsFunc(funcs, 0);
    FirstOp(funcs[0], Bs9Layout.Labels(funcs[..0]));
    var first := UnitOps(us[0]);
    assert ops == stub + AllUnitOps(us);
    assert AllUnitOps(us[..0]) == [] by { NoUnits(us); }
    assert AllUnitOps(us) == first + rest && ops[|stub|] == first[0];
    MadeProgram(funcs, top);
    PassesAgree(ops, 0, 0, TableOf(funcs, top, TextOf), TextOf);
    SymbolsAgree(ops, |stub|, TextOf);
    StubMarks(top);
    assert ops[..|stub|] == stub;
  }

  lemma FirstOp(f: Function, n: nat)
    requires f.params <= MaxArgs
    ensures FuncOps(f, n) != [] && FuncOps(f, n)[0] == Mark(Func(f.name))
  {
  }

  lemma NoUnits(us: seq<Unit>)
    ensures AllUnitOps(us[..0]) == []
  {
  }

  /** int __Bool_True() { return 0; } int main() { if (1 == 1) { } return 0; } is compiled, and its text assembles to
      other words. */
  lemma {:induction false} CaseStray(top: Word)
    ensures var funcs := [Returning0("__Bool_True"), Testing()];
            && FewParams(funcs) && ItemsOf(funcs, top, TextOf).Some?
            && var items := ItemsOf(funcs, top, TextOf).value;
            var text := Asm.Assemble(LinesOf(items, TextOf));
            text.Some? && text != Some(WordsOf(CodeOf(items)))
  {
    hide ItemsOf, TableOf, Asm.Assemble, LinesOf, TextOf, CodeOf, Marks, CompProgram, CallsStmts, Small, ComparesStmts, WordsOf;
    var funcs := [Returning0("__Bool_True"), Testing()];
    Returning0Small("__Bool_True");
    TestingSmall();
    assert Declares(funcs, "main") by { assert funcs[1] in funcs; }
    PlainStray();
    SmallLowers(funcs, top);
    PlainNamesAssemble(funcs, top);
    assert Compares(funcs) by { assert funcs[1] in funcs; }
    LabelsApart(funcs, top);
    FirstAt15(funcs, top);
    assert IsStray(funcs[0]);
  }

  lemma PlainStray()
    ensures Asm.Fold("__Bool_True") == Asm.Fold(LeftoverName) && PlainName("__Bool_True") && PlainName("main")
    ensures Asm.Fold("__Bool_True") != Asm.Fold("main")
  {
    FoldAt("__Bool_True");
    FoldAt(LeftoverName);
    var name := "__Bool_True";
    assert |name| == |LeftoverName| == 11 && name[10] == 'e' && |Asm.Fold("main")| == 4 && "main"[0] == 'm';
    forall i | 0 <= i < 11
      ensures Asm.Fold(name)[i] == Asm.Fold(LeftoverName)[i]
    {
      assert name[i] == LeftoverName[i] || (i == 2 && name[i] == 'B' && LeftoverName[i] == 'b')
             || (i == 7 && name[i] == 'T' && LeftoverName[i] == 't');
    }
  }

  /** For such a program the hypothesis of the end-to-end theorem is what a programmer can see: the tokens parse without
      an error, main and every called function are declared, and the words fit below the stack. */
  lemma {:induction false} PlainNamesCompile(ds: seq<Top>, lo: nat, top: Word)
    requires PrintableProgram(ds) && PlainNames(Functions(ds))
    requires forall g :: g in Called(Functions(ds)) ==> PlainName(g)
    ensures Compiles(ds, lo, top, TextOf) <==>
              && ParseAll(PrintProgram(ds), Start0).errors == 0 && FewParams(Functions(ds))
              && (forall g :: g in Called(Functions(ds)) ==> Declares(Functions(ds), g))
              && Size(CompProgram(Functions(ds), top)) < lo <= top
  {
    hide PrintableProgram, ParseAll, PrintProgram, FuncsOf, CompProgram, Called, TextOf, PlainName, PlainNames, Declares,
      Marks, Size, Distinct, Texted, CallsApart, ItemsOf;
    var funcs := Functions(ds);
    if FewParams(funcs) {
      PlainNamesDistinct(funcs, top);
      PlainNamesLower(funcs, top);
      LowersIff(funcs, top, TextOf);
    }
  }

  /** Names with underscores do collide: an undeclared function called like main's return label is no error. */
  lemma {:induction false} ReservedNameLowers(top: Word)
    ensures var funcs := [Function("main", 0, 0, Cons(Do(CallFn("__main_ret", NoArgs)), Nil))];
            FewParams(funcs) && ItemsOf(funcs, top, TextOf).Some? && !Declares(funcs, "__main_ret")
  {
    hide ItemsOf;
    assert TextOf(End("main")) == "__main_ret";
    UndeclaredLowers(top, TextOf);
  }
}
