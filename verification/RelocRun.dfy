/** The assembler's table and code map, updated in place by the commits of both passes, and the processor. */
module RelocRun {
  import opened Options
  import opened CodeMap
  import opened CodeMapRead
  import opened CodeMapOk
  import opened Reloc
  import opened RelocOk
  import CodeMapRun
  import B = Bs3Cpu

  /** The map once the cells before a are written. */
  ghost function Wrote(m: Cells, l: Line, a: nat): Cells
    requires l.address <= a <= l.End() <= 65536
  {
    m + Patch(l.address, l.assembly[..a - l.address])
  }

  lemma WroteStep(m: Cells, l: Line, a: nat)
    requires l.Covers(a) && l.End() <= 65536
    ensures Wrote(m, l, a + 1) == Wrote(m, l, a)[a := l.At(a)]
    ensures forall x :: x in Wrote(m, l, a) <==> x in m || l.address <= x < a
  {
    hide Patch;
    var k := a - l.address;
    assert l.assembly[..k + 1] == l.assembly[..k] + [l.assembly[k]];
    PatchStep(l.address, l.assembly[..k], l.assembly[k]);
  }

  lemma {:induction false} PatchStep(a: nat, bs: seq<Byte>, b: Byte)
    requires a + |bs| < 65536
    ensures Patch(a, bs + [b]) == Patch(a, bs)[a + |bs| := b]
  {
    hide Patch;
  }

  lemma WroteEnds(m: Cells, l: Line)
    requires l.End() <= 65536
    ensures Wrote(m, l, l.address) == m && Wrote(m, l, l.End()) == m + Patch(l.address, l.assembly)
  {
    assert l.assembly[..0] == [];
    assert l.assembly[..|l.assembly|] == l.assembly;
    assert Patch(l.address, []) == map[];
  }

  lemma {:induction false} FillNext(m: Cells, l: Line, i: nat)
    requires l.address <= i <= l.End() <= 65536
    ensures Fill(m, i, l.assembly[i - l.address..], false) ==
            if i == l.End() then Full(m)
            else if i in m then Clash(Overlap)
            else Fill(m[i := l.assembly[i - l.address]], i + 1, l.assembly[i + 1 - l.address..], false)
  {
    hide Fill;
    var rest := l.assembly[i - l.address..];
    FillStep(m, i, rest, false);
    if i < l.End() {
      assert rest[1..] == l.assembly[i + 1 - l.address..];
    }
  }

  class Assembler {
    var lines: seq<Line>
    const map_: CodeMapRun.Map

    ghost predicate Valid()
      reads this
    {
      map_.Sized() && AllShaped(lines)
    }

    ghost function Cells(): Cells
      reads this, map_.code, map_.inUse
      requires Valid()
    {
      map_.Contents()
    }

    constructor ()
      ensures Valid() && lines == [] && Cells() == map[] && fresh(map_.code) && fresh(map_.inUse)
    {
      map_ := new CodeMapRun.Map();
      lines := [];
    }

    /** Commit a line not in the table yet. */
    method CommitNew(l: Line) returns (ok: bool)
      requires Valid() && Shaped(l)
      modifies this, map_.code, map_.inUse
      ensures Valid()
      ensures ok == AddLine(old(Cells()), l).Full?
      ensures ok ==> Cells() == AddLine(old(Cells()), l).cells && lines == old(lines) + [l]
      ensures !ok ==> lines == old(lines)
    {
      hide Fill, Shaped, CodeMapRun.Map.Contents;
      EndFits(l);
      assert AllShaped(lines + [l]);
      var i: nat := l.address;
      assert l.assembly[0..] == l.assembly;
      while i < l.End()
        invariant l.address <= i <= l.End() && Valid() && lines == old(lines)
        invariant Fill(Cells(), i, l.assembly[i - l.address..], false) == AddLine(old(Cells()), l)
      {
        FillNext(Cells(), l, i);
        InUseIs(i);
        if map_.inUse[i] { return false; }
        map_.SetCell(i, l.assembly[i - l.address]);
        i := i + 1;
      }
      FillNext(Cells(), l, i);
      lines := lines + [l];
      ok := true;
    }

    lemma InUseIs(a: nat)
      requires Valid() && a < 65536
      ensures map_.inUse[a] <==> a in Cells()
    {
    }

    /** Commit line i again, with other bytes: every cell of it must be in use. */
    method CommitAgain(i: nat, l: Line) returns (ok: bool)
      requires Valid() && Shaped(l) && i < |lines|
      modifies this, map_.code, map_.inUse
      ensures Valid()
      ensures ok == InUse(old(Cells()), l)
      ensures ok ==> Cells() == old(Cells()) + Patch(l.address, l.assembly) && lines == old(lines)[i := l]
      ensures !ok ==> lines == old(lines)
    {
      hide Patch, Shaped, Wrote, CodeMapRun.Map.Contents;
      EndFits(l);
      var a: nat := l.address;
      ghost var m := Cells();
      WroteEnds(m, l);
      while a < l.End()
        invariant l.address <= a <= l.End() && Valid() && lines == old(lines)
        invariant forall x :: l.address <= x < a ==> x in m
        invariant Cells() == Wrote(m, l, a)
      {
        InUseIs(a);
        WroteStep(m, l, a);
        if !map_.inUse[a] { return false; }
        map_.SetCell(a, l.assembly[a - l.address]);
        a := a + 1;
      }
      assert AllShaped(lines[i := l]);
      lines := lines[i := l];
      ok := true;
    }

    /** The first line with the label. */
    method AtLabel(name: nat) returns (a: Option<Address>)
      ensures a == Find(lines, name)
    {
      var i := 0;
      while i < |lines|
        invariant 0 <= i <= |lines|
        invariant Find(lines, name) == Find(lines[i..], name)
      {
        if lines[i].name == Some(name) && !lines[i].alias { return Some(lines[i].address); }
        i := i + 1;
      }
      a := None;
    }

    /** The label's address along the pattern. */
    static method PatchCode(l: Line, bs: seq<Byte>, target: Address) returns (assembly: seq<Byte>, err: Option<Fault>)
      requires Shaped(l) && |bs| == |l.assembly| && bs != [] && |bs| == Size(Pattern(l.code))
      ensures var r := PatchFrom(Pattern(l.code), 0, bs, target, l.End());
              if r.Bad? then err == Some(r.error) else err == None && assembly == r.assembly
    {
      var p, k := Pattern(l.code), 0;
      assembly, err := bs, None;
      assert p[0..] == p;
      while k < |p|
        invariant 0 <= k <= |p| && |assembly| == |bs|
        invariant k < |p| ==> k + Size(p[k..]) <= |bs|
        invariant PatchFrom(p, 0, bs, target, l.End()) == PatchFrom(p, k, assembly, target, l.End())
      {
        assert p[k..][1..] == p[k + 1..];
        var d := target - l.End();
        match p[k] {
          case Near =>
            if d < -128 || d > 127 { return assembly, Some(TooFar); }
            assembly := assembly[k := Low(d)];
          case Far =>
            if d < -32768 || d > 32767 { return assembly, Some(TooFar); }
            assembly := Store(assembly, k, d);
          case Absolute =>
            assembly := Store(assembly, k, target);
          case _ =>
        }
        k := k + 1;
      }
    }

    /** The labels of one line. */
    method PatchOne(l: Line) returns (assembly: seq<Byte>, err: Option<Fault>)
      requires Shaped(l) && l.assembly != []
      ensures var r := PatchParams(lines, l, 0, l.assembly);
              if r.Bad? then err == Some(r.error) else err == None && assembly == r.assembly
    {
      hide PatchFrom, Pattern, Size, Find;
      var j := 0;
      assembly, err := l.assembly, None;
      while j < |l.params|
        invariant 0 <= j <= |l.params| && |assembly| == |l.assembly|
        invariant PatchParams(lines, l, 0, l.assembly) == PatchParams(lines, l, j, assembly)
      {
        if l.params[j].Label? {
          var a := AtLabel(l.params[j].name);
          if a == None { return assembly, Some(NoLabel); }
          if l.code != DW {
            assert HasLabel(l.params);
            assembly, err := PatchCode(l, assembly, a.value);
            return;
          }
          assembly := Store(assembly, 2 * j, a.value);
        }
        j := j + 1;
      }
    }

    method RunPass2() returns (err: Option<Fault>)
      requires Valid()
      modifies this, map_.code, map_.inUse
      ensures Valid()
      ensures match Pass2(old(lines), old(Cells()), 0)
              case Table(ls, m) => err == None && lines == ls && Cells() == m
              case Broken(e) => err == Some(e)
    {
      hide PatchParams, Patch, InUse, Shaped;
      var i := 0;
      while i < |lines|
        invariant 0 <= i <= |lines| && Valid()
        invariant Pass2(lines, Cells(), i) == Pass2(old(lines), old(Cells()), 0)
      {
        var l := lines[i];
        assert Shaped(l);
        if l.assembly != [] && l.params != [] {
          var assembly;
          assembly, err := PatchOne(l);
          if err != None { return; }
          PatchLineIs(lines, l);
          ShapedKept(lines, i, assembly);
          ghost var ls, m := lines[i := l.(assembly := assembly)], Cells();
          assert Shaped(ls[i]);
          InUseSame(m, l, assembly);
          var ok := CommitAgain(i, l.(assembly := assembly));
          if !ok { return Some(Unexpected); }
        }
        i := i + 1;
      }
      err := None;
    }
  }

  lemma {:induction false} PatchLineIs(lines: seq<Line>, l: Line)
    requires Shaped(l) && l.assembly != [] && l.params != []
    ensures PatchLine(lines, l) == PatchParams(lines, l, 0, l.assembly)
  {
  }

  lemma InUseSame(m: Cells, l: Line, bs: seq<Byte>)
    requires |bs| == |l.assembly|
    ensures InUse(m, l.(assembly := bs)) == InUse(m, l)
  {
  }

  class CpuData {
    var pc: Address
    var sp: Address
    const w: array<Address>
    var f: B.Flags
    const m: array<Byte>

    ghost predicate Valid() { w.Length == 4 && m.Length == 65536 }

    ghost function State(): B.Cpu
      reads this, w, m
    {
      B.Cpu(pc, sp, w[..], f, m[..])
    }

    method ReadByte(a: Address) returns (b: Byte)
      requires Valid()
      ensures b == B.ReadByte(m[..], a)
    {
      b := m[a];
    }

    method ReadWord(a: Address) returns (r: Address)
      requires Valid()
      ensures r == B.ReadWord(m[..], a)
    {
      r := Word(m[a], if a + 1 < 65536 then m[a + 1] else 0);
    }

    method WriteWord(a: Address, v: Address)
      requires Valid()
      modifies m
      ensures m[..] == B.WriteWord(old(m[..]), a, v)
    {
      m[a] := Low(v);
      if a + 1 < 65536 { m[a + 1] := High(v); }
    }

    /** The jumps, calls and address loads; other instructions are not known here. */
    method Exec() returns (known: bool)
      requires Valid() && (w as object) != (m as object)
      modifies this, w, m
      ensures Valid()
      ensures known == B.Exec(old(State())).Some?
      ensures State() == if known then B.Exec(old(State())).value else old(State())
    {
      hide B.ReadWord, B.WriteWord, B.Taken, B.Wrap, Signed8, Signed16;
      var ope := m[pc];
      known := true;
      if 0x10 <= ope <= 0x13 {
        pc := B.Wrap(pc + 1);
        var d := ReadWord(pc);
        w[ope - 0x10] := B.Wrap(pc + Signed16(d) + 2);
        pc := B.Wrap(pc + 2);
      } else if 0x14 <= ope <= 0x17 {
        pc := B.Wrap(pc + 1);
        var d := ReadByte(pc);
        w[ope - 0x14] := B.Wrap(pc + Signed8(d) + 1);
        pc := B.Wrap(pc + 1);
      } else if ope == 0x3C {
        pc := ReadWord(sp);
        sp := B.Wrap(sp + 2);
      } else if ope == 0x3E {
        pc := ReadWord(B.Wrap(pc + 1));
      } else if ope == 0x3F {
        pc := B.Wrap(pc + 1);
        sp := B.Wrap(sp - 2);
        WriteWord(sp, B.Wrap(pc + 2));
        pc := ReadWord(pc);
      } else if ope == 0x4E {
        pc := B.Wrap(pc + 1);
        var d := ReadByte(pc);
        pc := B.Wrap(1 + pc + Signed8(d));
      } else if ope == 0x4F {
        pc := B.Wrap(pc + 1);
        sp := B.Wrap(sp - 2);
        WriteWord(sp, B.Wrap(pc + 1));
        var d := ReadByte(pc);
        pc := B.Wrap(1 + pc + Signed8(d));
      } else if 0x40 <= ope <= 0x4D {
        if B.Taken(ope, f) {
          var d := ReadByte(B.Wrap(pc + 1));
          pc := B.Wrap(2 + pc + Signed8(d));
        } else {
          pc := B.Wrap(pc + 2);
        }
      } else {
        known := false;
      }
    }
  }
}
