/** After pass 2 the code map is the lines, and every label is where the pattern wants it. */
module RelocOk {
  import opened Options
  import opened CodeMap
  import opened CodeMapRead
  import opened CodeMapOk
  import opened Reloc

  // ----- pass 1: lines are added -----

  lemma AddedLine(m: Cells, before: seq<Line>, l: Line)
    requires IsUnion(m, before) && Disjoint(before) && Shaped(l)
    ensures Apart(Patch(l.address, l.assembly), m) <==> Disjoint(before + [l])
    ensures Disjoint(before + [l]) ==> IsUnion(m + Patch(l.address, l.assembly), before + [l])
  {
    var p := Patch(l.address, l.assembly);
    var all := before + [l];
    assert forall a :: a in p <==> l.Covers(a);
    if Apart(p, m) {
      forall i, j, a | 0 <= i < j < |all| && all[i].Covers(a) ensures !all[j].Covers(a) {
        if j == |before| {
          assert before[i].Covers(a);
          assert a in m;
        } else {
          assert before[i].Covers(a);
        }
      }
    }
    if Disjoint(all) {
      forall a | a in p ensures a !in m {
        assert all[|before|].Covers(a);
        assert forall i :: 0 <= i < |before| ==> all[i] == before[i];
      }
      AddedUnion(m, before, l);
    }
  }

  lemma AddedUnion(m: Cells, before: seq<Line>, l: Line)
    requires IsUnion(m, before) && Disjoint(before + [l]) && Shaped(l)
    ensures IsUnion(m + Patch(l.address, l.assembly), before + [l])
  {
    hide Disjoint, Patch, HasLabel, Pattern, Size;
    var p := Patch(l.address, l.assembly);
    var all, n := before + [l], m + p;
    forall i, a | 0 <= i < |all| && all[i].Covers(a) ensures a in n && n[a] == all[i].At(a) {
      if i < |before| {
        KeptApart(before, l, i, a);
      }
    }
    forall a | a in n ensures Covered(all, a) {
      if a in p {
        assert all[|before|].Covers(a);
      } else {
        assert Covered(before, a);
        var i :| 0 <= i < |before| && before[i].Covers(a);
        assert all[i].Covers(a);
      }
    }
  }

  lemma KeptApart(before: seq<Line>, l: Line, i: nat, a: int)
    requires Disjoint(before + [l]) && i < |before| && before[i].Covers(a)
    ensures !l.Covers(a)
  {
    assert (before + [l])[i] == before[i] && (before + [l])[|before|] == l;
  }

  lemma DisjointPrefix(xs: seq<Line>, ys: seq<Line>)
    requires Disjoint(xs + ys)
    ensures Disjoint(xs)
  {
    var all := xs + ys;
    forall i, j, a | 0 <= i < j < |xs| && xs[i].Covers(a) ensures !xs[j].Covers(a) {
      assert all[i].Covers(a) && all[j] == xs[j];
    }
  }

  lemma {:induction false} AddMore(m: Cells, before: seq<Line>, ls: seq<Line>)
    requires IsUnion(m, before) && Disjoint(before) && AllShaped(ls)
    ensures AddLines(m, ls).Full? <==> Disjoint(before + ls)
    ensures AddLines(m, ls).Full? ==> IsUnion(AddLines(m, ls).cells, before + ls)
    decreases |ls|
  {
    hide IsUnion, Disjoint, Fill, Apart, Shaped, Patch;
    if ls == [] {
      assert before + ls == before;
    } else {
      var l := ls[0];
      assert Shaped(l);
      assert l.End() <= 65536 by { EndFits(l); }
      AddedLine(m, before, l);
      FillOk(m, l.address, l.assembly, false);
      assert before + ls == before + [l] + ls[1..];
      if Disjoint(before + [l]) {
        assert AllShaped(ls[1..]) by { assert forall i :: 0 <= i < |ls[1..]| ==> ls[1..][i] == ls[i + 1]; }
        AddMore(m + Patch(l.address, l.assembly), before + [l], ls[1..]);
      } else if Disjoint(before + ls) {
        DisjointPrefix(before + [l], ls[1..]);
      }
    }
  }

  lemma EndFits(l: Line)
    requires Shaped(l)
    ensures l.End() <= 65536
  {
  }

  /** Lines can be added to an empty map exactly when no two of them share a cell; the map is then the lines. */
  lemma {:induction false} PassOne(ls: seq<Line>)
    requires AllShaped(ls)
    ensures AddLines(map[], ls).Full? <==> Disjoint(ls)
    ensures AddLines(map[], ls).Full? ==> IsUnion(AddLines(map[], ls).cells, ls)
  {
    assert [] + ls == ls;
    AddMore(map[], [], ls);
  }

  // ----- pass 2: lines are patched -----

  lemma {:induction false} UpdateKeeps(m: Cells, lines: seq<Line>, i: nat, bs: seq<Byte>)
    requires IsUnion(m, lines) && Disjoint(lines) && i < |lines| && |bs| == |lines[i].assembly|
    requires lines[i].End() <= 65536
    ensures var lines' := lines[i := lines[i].(assembly := bs)];
            var m' := m + Patch(lines[i].address, bs);
            Disjoint(lines') && IsUnion(m', lines') && (forall a :: a in m' <==> a in m)
  {
    hide IsUnion, Disjoint, Patch;
    SameCover(lines, i, bs);
    UpdateShows(m, lines, i, bs);
  }

  /** The line covers the cells it covered. */
  lemma SameCover(lines: seq<Line>, i: nat, bs: seq<Byte>)
    requires i < |lines| && |bs| == |lines[i].assembly|
    ensures var lines' := lines[i := lines[i].(assembly := bs)];
            && (forall k, a :: 0 <= k < |lines| ==> lines'[k].Covers(a) == lines[k].Covers(a))
            && (Disjoint(lines) ==> Disjoint(lines'))
  {
  }

  lemma {:induction false} UpdateShows(m: Cells, lines: seq<Line>, i: nat, bs: seq<Byte>)
    requires IsUnion(m, lines) && Disjoint(lines) && i < |lines| && |bs| == |lines[i].assembly|
    requires lines[i].End() <= 65536
    ensures var m' := m + Patch(lines[i].address, bs);
            IsUnion(m', lines[i := lines[i].(assembly := bs)]) && (forall a :: a in m' <==> a in m)
  {
    hide Disjoint, Patch, Covered, Line.Covers, Line.At;
    var m', lines' := m + Patch(lines[i].address, bs), lines[i := lines[i].(assembly := bs)];
    PatchInside(m, lines, i, bs);
    SameCover(lines, i, bs);
    forall k, a | 0 <= k < |lines'| && lines'[k].Covers(a)
      ensures a in m' && m'[a] == lines'[k].At(a)
    {
      UpdatedAt(m, lines, i, bs, k, a);
    }
    forall a | a in m'
      ensures Covered(lines', a)
    {
      StillCovered(m, lines, i, bs, a);
    }
  }

  lemma StillCovered(m: Cells, lines: seq<Line>, i: nat, bs: seq<Byte>, a: int)
    requires IsUnion(m, lines) && i < |lines| && |bs| == |lines[i].assembly| && a in m
    ensures Covered(lines[i := lines[i].(assembly := bs)], a)
  {
    hide Line.Covers, Line.At;
    SameCover(lines, i, bs);
    assert Covered(lines, a);
    var k :| 0 <= k < |lines| && lines[k].Covers(a);
    assert lines[i := lines[i].(assembly := bs)][k].Covers(a);
  }

  lemma {:induction false} PatchInside(m: Cells, lines: seq<Line>, i: nat, bs: seq<Byte>)
    requires IsUnion(m, lines) && i < |lines| && |bs| == |lines[i].assembly| && lines[i].End() <= 65536
    ensures forall a :: a in m + Patch(lines[i].address, bs) <==> a in m
  {
    hide Patch;
    assert forall a :: a in Patch(lines[i].address, bs) ==> lines[i].Covers(a);
  }

  lemma {:induction false} UpdatedAt(m: Cells, lines: seq<Line>, i: nat, bs: seq<Byte>, k: nat, a: int)
    requires IsUnion(m, lines) && Disjoint(lines) && i < |lines| && |bs| == |lines[i].assembly|
    requires lines[i].End() <= 65536 && k < |lines| && lines[k].Covers(a)
    ensures var m', l := m + Patch(lines[i].address, bs), lines[i := lines[i].(assembly := bs)][k];
            l.Covers(a) && a in m' && m'[a] == l.At(a)
  {
    hide Disjoint, Patch;
    if k != i {
      CoveredOnce(lines, i, k, a);
    }
  }

  lemma CoveredOnce(lines: seq<Line>, i: nat, k: nat, a: int)
    requires Disjoint(lines) && i < |lines| && k < |lines| && i != k && lines[k].Covers(a)
    ensures !lines[i].Covers(a)
  {
  }

  /** Lines with the same labels in the same places. */
  predicate SameLabels(xs: seq<Line>, ys: seq<Line>) {
    |xs| == |ys| &&
    forall i :: 0 <= i < |xs| ==> xs[i].name == ys[i].name && xs[i].alias == ys[i].alias && xs[i].address == ys[i].address
  }

  lemma {:induction false} SameFind(xs: seq<Line>, ys: seq<Line>, name: nat)
    requires SameLabels(xs, ys)
    ensures Find(xs, name) == Find(ys, name)
    decreases |xs|
  {
    if xs != [] {
      SameFind(xs[1..], ys[1..], name);
    }
  }

  lemma {:induction false} SameParams(xs: seq<Line>, ys: seq<Line>, l: Line, j: nat, bs: seq<Byte>)
    requires SameLabels(xs, ys)
    requires j <= |l.params| && |bs| == |l.assembly| && bs != [] && Shaped(l)
    ensures PatchParams(xs, l, j, bs) == PatchParams(ys, l, j, bs)
    decreases |l.params| - j
  {
    hide PatchFrom, Pattern, SameLabels, Find;
    if j < |l.params| {
      if l.params[j].Label? {
        SameFind(xs, ys, l.params[j].name);
        if Find(xs, l.params[j].name).Some? && l.code == DW {
          SameParams(xs, ys, l, j + 1, Store(bs, 2 * j, Find(xs, l.params[j].name).value));
        }
      } else {
        SameParams(xs, ys, l, j + 1, bs);
      }
    }
  }

  lemma SamePatch(xs: seq<Line>, ys: seq<Line>, l: Line)
    requires SameLabels(xs, ys) && Shaped(l)
    ensures PatchLine(xs, l) == PatchLine(ys, l)
  {
    if l.assembly != [] && l.params != [] {
      SameParams(xs, ys, l, 0, l.assembly);
    }
  }

  /** The line after pass 2. */
  function Final(lines: seq<Line>, l: Line): Line
    requires Shaped(l)
  {
    var r := PatchLine(lines, l);
    if r.Bytes? then l.(assembly := r.assembly) else l
  }

  predicate CanPatch(lines: seq<Line>, i: nat)
    requires AllShaped(lines)
  {
    forall k :: i <= k < |lines| ==> PatchLine(lines, lines[k]).Bytes?
  }

  predicate FirstBad(lines: seq<Line>, i: nat, k: nat)
    requires AllShaped(lines)
  {
    i <= k < |lines| && PatchLine(lines, lines[k]).Bad? &&
    forall h :: i <= h < k ==> PatchLine(lines, lines[h]).Bytes?
  }

  /** Outcome of pass 2 from line i on. */
  ghost predicate Relocated(lines: seq<Line>, m: Cells, i: nat, t: Table)
    requires AllShaped(lines)
  {
    match t
    case Table(ls, m') =>
      && CanPatch(lines, i)
      && |ls| == |lines| && Disjoint(ls) && IsUnion(m', ls)
      && (forall a :: a in m' <==> a in m)
      && (forall k :: 0 <= k < |ls| ==> ls[k] == if k < i then lines[k] else Final(lines, lines[k]))
    case Broken(e) =>
      exists k: nat :: FirstBad(lines, i, k) && PatchLine(lines, lines[k]).error == e
  }

  lemma CoveredInUse(m: Cells, lines: seq<Line>, i: nat)
    requires IsUnion(m, lines) && i < |lines|
    ensures InUse(m, lines[i])
  {
    assert forall a :: lines[i].address <= a < lines[i].End() ==> lines[i].Covers(a);
  }

  /** One line is patched and the rest follow. */
  lemma RelocatedStep(lines: seq<Line>, m: Cells, i: nat, m1: Cells, t: Table)
    requires AllShaped(lines) && i < |lines| && PatchLine(lines, lines[i]).Bytes?
    requires forall a :: a in m1 <==> a in m
    requires AllShaped(lines[i := Final(lines, lines[i])])
    requires Relocated(lines[i := Final(lines, lines[i])], m1, i + 1, t)
    ensures Relocated(lines, m, i, t)
  {
    hide PatchLine, Shaped, IsUnion, Disjoint;
    var ls1 := lines[i := Final(lines, lines[i])];
    assert SameLabels(lines, ls1);
    forall k | i < k < |lines| ensures PatchLine(ls1, ls1[k]) == PatchLine(lines, lines[k]) {
      SamePatch(lines, ls1, lines[k]);
    }
    match t {
      case Table(ls, m') =>
      case Broken(e) =>
        var k: nat :| FirstBad(ls1, i + 1, k) && PatchLine(ls1, ls1[k]).error == e;
        assert FirstBad(lines, i, k);
    }
  }

  lemma {:induction false} Pass2From(lines: seq<Line>, m: Cells, i: nat)
    requires AllShaped(lines) && i <= |lines| && IsUnion(m, lines) && Disjoint(lines)
    ensures Relocated(lines, m, i, Pass2(lines, m, i))
    decreases |lines| - i
  {
    hide PatchParams, Shaped, IsUnion, Disjoint, Relocated, InUse, Patch;
    if i == |lines| {
      assert Relocated(lines, m, i, Table(lines, m)) by { NothingToDo(lines, m); }
    } else {
      var l := lines[i];
      assert Shaped(l);
      EndFits(l);
      var r := PatchLine(lines, l);
      CoveredInUse(m, lines, i);
      if l.assembly == [] || l.params == [] {
        assert lines[i := Final(lines, l)] == lines;
        Pass2From(lines, m, i + 1);
        RelocatedStep(lines, m, i, m, Pass2(lines, m, i));
      } else if r.Bad? {
        FirstIsBad(lines, m, i);
      } else {
        var bs := r.assembly;
        ShapedKept(lines, i, bs);
        UpdateKeeps(m, lines, i, bs);
        Pass2From(lines[i := l.(assembly := bs)], m + Patch(l.address, bs), i + 1);
        RelocatedStep(lines, m, i, m + Patch(l.address, bs), Pass2(lines, m, i));
      }
    }
  }

  lemma NothingToDo(lines: seq<Line>, m: Cells)
    requires AllShaped(lines) && IsUnion(m, lines) && Disjoint(lines)
    ensures Relocated(lines, m, |lines|, Table(lines, m))
  {
  }

  lemma FirstIsBad(lines: seq<Line>, m: Cells, i: nat)
    requires AllShaped(lines) && i < |lines| && PatchLine(lines, lines[i]).Bad?
    ensures Relocated(lines, m, i, Broken(PatchLine(lines, lines[i]).error))
  {
    assert FirstBad(lines, i, i);
  }

  /** Pass 2 of lines that were added without overlap succeeds exactly when every label can be written. Every line
    * is then the old one with its labels in, the map is exactly the new lines, and no cell has come into use or out
    * of it. The error of a failing pass is that of the first line that cannot be patched; no cell is ever missing. */
  lemma {:induction false} PassTwo(ls: seq<Line>)
    requires AllShaped(ls) && Disjoint(ls)
    ensures var added := AddLines(map[], ls);
            added.Full? &&
            var t := Pass2(ls, added.cells, 0);
            && (t.Table? <==> CanPatch(ls, 0))
            && (t.Table? ==>
                  && IsUnion(t.cells, t.lines) && Disjoint(t.lines)
                  && (forall a :: a in t.cells <==> a in added.cells)
                  && |t.lines| == |ls| && forall k :: 0 <= k < |ls| ==> t.lines[k] == Final(ls, ls[k]))
            && (t.Broken? ==> exists k: nat :: FirstBad(ls, 0, k) && PatchLine(ls, ls[k]).error == t.error)
  {
    hide IsUnion, Disjoint, PatchLine, Shaped, Pass2;
    PassOne(ls);
    var added := AddLines(map[], ls);
    Pass2From(ls, added.cells, 0);
  }

  // ----- what is written where -----

  function Signed8(b: Byte): int { if b < 128 then b else b - 256 }

  function Signed16(w: int): int { if w < 32768 then w else w - 65536 }

  lemma Encoded8(d: int)
    requires -128 <= d <= 127
    ensures Signed8(Low(d)) == d
  {
  }

  lemma Encoded16(d: int)
    requires -32768 <= d < 65536
    ensures Word(Low(d), High(d)) == if d < 0 then d + 65536 else d
  {
    var q := d / 256;
    assert -128 <= q < 256;
    assert q % 256 == if q < 0 then q + 256 else q;
  }

  /** The label of an instruction. */
  function LabelOf(ps: seq<Param>): Option<nat>
    decreases |ps|
  {
    if ps == [] then None else if ps[0].Label? then Some(ps[0].name) else LabelOf(ps[1..])
  }

  /** The place for the label in an instruction's pattern: the last. */
  function Place(code: nat): (k: nat) { |Pattern(code)| - 1 }

  /** Whether the label's place can hold its address or distance. */
  predicate Reaches(s: Slot, target: int, end: int) {
    match s
    case Near => -128 <= target - end <= 127
    case Far => -32768 <= target - end <= 32767
    case _ => true
  }

  /** The bytes at place k give the address as the pattern means it. */
  predicate Says(s: Slot, bs: seq<Byte>, k: nat, target: int, end: int)
    requires k + Width(s) <= |bs|
  {
    match s
    case Near => end + Signed8(bs[k]) == target
    case Far => end + Signed16(Word(bs[k], bs[k + 1])) == target
    case Absolute => Word(bs[k], bs[k + 1]) == target
    case _ => true
  }

  lemma PatternSize(code: nat)
    ensures Size(Pattern(code)) == Place(code) + Width(Pattern(code)[Place(code)])
  {
    var p := Pattern(code);
    if |p| == 2 {
      assert p[1..] == [p[1]] && p[1..][1..] == [];
    } else if |p| == 3 {
      assert p[1..] == [p[1], p[2]] && p[1..][1..] == [p[2]] && p[1..][1..][1..] == [];
    } else {
      assert p[1..] == [];
    }
  }

  lemma {:induction false} PatchPlace(code: nat, bs: seq<Byte>, target: Address, end: nat)
    requires |bs| == Size(Pattern(code))
    ensures var s, k := Pattern(code)[Place(code)], Place(code);
            var r := PatchFrom(Pattern(code), 0, bs, target, end);
            && |bs| == k + Width(s)
            && (r.Bytes? <==> Reaches(s, target, end))
            && (r.Bytes? ==> Says(s, r.assembly, k, target, end) && r.assembly[..k] == bs[..k])
  {
    PatternSize(code);
    var p := Pattern(code);
    var s, k := p[Place(code)], Place(code);
    PatchSkip(p, 0, bs, target, end);
    PatchLast(p, bs, target, end);
    var d := target - end;
    if s.Near? && Reaches(s, target, end) {
      Encoded8(d);
    } else if s.Far? && Reaches(s, target, end) {
      Encoded16(d);
    } else if s.Absolute? {
      Encoded16(target);
    }
  }

  /** Only the last place of a pattern is for a label. */
  lemma {:induction false} PatchSkip(p: seq<Slot>, k: nat, bs: seq<Byte>, target: Address, end: nat)
    requires p != [] && p[0].Ope? && k < |p| && k + Size(p[k..]) <= |bs|
    requires forall h :: 0 <= h < |p| && !p[h].Ope? && !p[h].Par? ==> h == |p| - 1
    ensures |p| - 1 + Size(p[|p| - 1..]) <= |bs|
    ensures PatchFrom(p, k, bs, target, end) == PatchFrom(p, |p| - 1, bs, target, end)
    decreases |p| - k
  {
    if k < |p| - 1 {
      assert p[k..][1..] == p[k + 1..];
      PatchSkip(p, k + 1, bs, target, end);
    }
  }

  lemma PatchLast(p: seq<Slot>, bs: seq<Byte>, target: Address, end: nat)
    requires p != [] && p[0].Ope? && |p| - 1 + Size(p[|p| - 1..]) <= |bs|
    ensures Size(p[|p| - 1..]) == Width(p[|p| - 1])
    ensures var k, d := |p| - 1, target - end;
            PatchFrom(p, k, bs, target, end) ==
            match p[k]
            case Near => if -128 <= d <= 127 then Bytes(bs[k := Low(d)]) else Bad(TooFar)
            case Far => if -32768 <= d <= 32767 then Bytes(Store(bs, k, d)) else Bad(TooFar)
            case Absolute => Bytes(Store(bs, k, target))
            case _ => Bytes(bs)
  {
    var k := |p| - 1;
    assert p[k..][1..] == [];
    assert p[k..] == [p[k]];
  }

  lemma {:induction false} FirstLabel(lines: seq<Line>, l: Line, j: nat, bs: seq<Byte>)
    requires Shaped(l) && j <= |l.params| && bs == l.assembly && bs != [] && l.code != DW
    requires LabelOf(l.params[j..]).Some?
    ensures HasLabel(l.params)
    ensures var a := Find(lines, LabelOf(l.params[j..]).value);
            PatchParams(lines, l, j, bs) ==
            if a.None? then Bad(NoLabel) else PatchFrom(Pattern(l.code), 0, bs, a.value, l.End())
    decreases |l.params| - j
  {
    assert l.params[j..][1..] == l.params[j + 1..];
    if l.params[j].Other? {
      FirstLabel(lines, l, j + 1, bs);
    }
  }

  /** An instruction with a label: it can be patched exactly when the label is known and the pattern can hold
    * it, and then the pattern's place says the label's address and the bytes before it are kept. */
  lemma {:induction false} InstructionPatched(lines: seq<Line>, l: Line)
    requires Shaped(l) && l.assembly != [] && l.code != DW && LabelOf(l.params).Some?
    ensures var a := Find(lines, LabelOf(l.params).value);
            var s, k := Pattern(l.code)[Place(l.code)], Place(l.code);
            var r := PatchLine(lines, l);
            && |l.assembly| == k + Width(s)
            && (r.Bytes? <==> a.Some? && Reaches(s, a.value, l.End()))
            && (r.Bad? ==> r.error == if a.None? then NoLabel else TooFar)
            && (r.Bytes? ==> Says(s, r.assembly, k, a.value, l.End()) && r.assembly[..k] == l.assembly[..k])
  {
    hide PatchFrom;
    assert l.params[0..] == l.params;
    FirstLabel(lines, l, 0, l.assembly);
    var a := Find(lines, LabelOf(l.params).value);
    if a.Some? {
      PatchPlace(l.code, l.assembly, a.value, l.End());
      PatchFaults(Pattern(l.code), 0, l.assembly, a.value, l.End());
    } else {
      PatternSize(l.code);
    }
  }

  lemma {:induction false} PatchFaults(p: seq<Slot>, k: nat, bs: seq<Byte>, target: Address, end: nat)
    requires p != [] && p[0].Ope? && k <= |p| && (k < |p| ==> k + Size(p[k..]) <= |bs|)
    ensures var r := PatchFrom(p, k, bs, target, end); r.Bad? ==> r.error == TooFar
    decreases |p| - k
  {
    if k < |p| {
      assert p[k..][1..] == p[k + 1..];
      var d := target - end;
      match p[k] {
        case Near => if -128 <= d <= 127 { PatchFaults(p, k + 1, bs[k := Low(d)], target, end); }
        case Far => if -32768 <= d <= 32767 { PatchFaults(p, k + 1, Store(bs, k, d), target, end); }
        case Absolute => PatchFaults(p, k + 1, Store(bs, k, target), target, end);
        case _ => PatchFaults(p, k + 1, bs, target, end);
      }
    }
  }

  lemma {:induction false} WordsFrom(lines: seq<Line>, l: Line, j: nat, bs: seq<Byte>)
    requires Shaped(l) && l.code == DW && l.assembly != [] && |bs| == |l.assembly| && j <= |l.params|
    ensures var r := PatchParams(lines, l, j, bs);
            && (r.Bytes? <==> forall i :: j <= i < |l.params| && l.params[i].Label? ==> Find(lines, l.params[i].name).Some?)
            && (r.Bad? ==> r.error == NoLabel)
            && (r.Bytes? ==> forall i :: 0 <= i < |l.params| ==>
                  WordAt(r.assembly, i) == if i >= j && l.params[i].Label? then Find(lines, l.params[i].name).value
                                           else WordAt(bs, i))
    decreases |l.params| - j
  {
    hide Store, WordAt, Find, HasLabel, Pattern, Size, PatchFrom;
    if j < |l.params| {
      if l.params[j].Label? {
        var a := Find(lines, l.params[j].name);
        if a.Some? {
          var bs' := Store(bs, 2 * j, a.value);
          StoredWords(bs, j, a.value);
          WordsFrom(lines, l, j + 1, bs');
        }
      } else {
        WordsFrom(lines, l, j + 1, bs);
      }
    }
  }

  function WordAt(bs: seq<Byte>, i: nat): int
    requires 2 * i + 2 <= |bs|
  {
    Word(bs[2 * i], bs[2 * i + 1])
  }

  lemma StoredWords(bs: seq<Byte>, j: nat, a: Address)
    requires 2 * j + 2 <= |bs|
    ensures var r := Store(bs, 2 * j, a);
            WordAt(r, j) == a && forall i :: 0 <= i && 2 * i + 2 <= |bs| && i != j ==> WordAt(r, i) == WordAt(bs, i)
  {
    Encoded16(a);
  }

  /** A line of words: it can be patched exactly when every label is known; word by word it then holds the
    * labels' addresses and the words that were there. */
  lemma {:induction false} WordsPatched(lines: seq<Line>, l: Line)
    requires Shaped(l) && l.code == DW && l.assembly != []
    ensures var r := PatchLine(lines, l);
            && (r.Bytes? <==> forall i :: 0 <= i < |l.params| && l.params[i].Label? ==> Find(lines, l.params[i].name).Some?)
            && (r.Bad? ==> r.error == NoLabel)
            && (r.Bytes? ==> forall i :: 0 <= i < |l.params| ==>
                  WordAt(r.assembly, i) == if l.params[i].Label? then Find(lines, l.params[i].name).value
                                           else WordAt(l.assembly, i))
  {
    if l.params != [] {
      WordsFrom(lines, l, 0, l.assembly);
    }
  }

  lemma {:induction false} NoLabelFrom(lines: seq<Line>, l: Line, j: nat)
    requires Shaped(l) && j <= |l.params| && l.assembly != [] && LabelOf(l.params[j..]).None?
    ensures PatchParams(lines, l, j, l.assembly) == Bytes(l.assembly)
    decreases |l.params| - j
  {
    if j < |l.params| {
      assert l.params[j..][1..] == l.params[j + 1..];
      NoLabelFrom(lines, l, j + 1);
    }
  }

  /** A line without labels stays as it is. */
  lemma UnlabelledKept(lines: seq<Line>, l: Line)
    requires Shaped(l) && LabelOf(l.params).None?
    ensures PatchLine(lines, l) == Bytes(l.assembly)
  {
    if l.assembly != [] && l.params != [] {
      assert l.params[0..] == l.params;
      NoLabelFrom(lines, l, 0);
    }
  }
}
