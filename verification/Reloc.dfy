/** Pass 2 of the BS3 assembler: label addresses are written into the assembled lines and the code map. */
module Reloc {
  import opened Options
  import opened CodeMap
  import opened CodeMapRead
  import opened CodeMapOk

  type Address = a: int | 0 <= a < 65536

  datatype Param = Label(name: nat) | Other

  /** A line of the assembler's table; an alias label names a value, not a place. */
  datatype Line = Line(name: Option<nat>, alias: bool, address: Address, code: nat, params: seq<Param>, assembly: seq<Byte>) {
    function End(): nat { address + |assembly| }

    predicate Covers(a: int) { address <= a < End() }

    function At(a: int): Byte
      requires Covers(a)
    {
      assembly[a - address]
    }
  }

  const DW: nat := 0x101

  /** What an instruction is assembled from, as far as labels go. */
  datatype Slot = Ope | Par | Near | Far | Absolute

  /** The pattern of an instruction; one without a place for a label is given as its code alone. */
  function Pattern(code: nat): (p: seq<Slot>)
    ensures 0 < |p| <= 3 && p[0].Ope?
    ensures forall k :: 0 <= k < |p| ==> !p[k].Ope? && !p[k].Par? ==> k == |p| - 1
  {
    if 0x10 <= code <= 0x13 then [Ope, Far]
    else if 0x14 <= code <= 0x17 || 0x40 <= code <= 0x4F then [Ope, Near]
    else if code == 0x3E || code == 0x3F || code == 0xED then [Ope, Absolute]
    else if code in {0x50, 0x60, 0x70, 0x80} || 0xD0 <= code <= 0xD4 || 0xDB <= code <= 0xDF || 0xE8 <= code <= 0xEC
    then [Ope, Par, Absolute]
    else [Ope]
  }

  function Width(s: Slot): nat { if s.Far? || s.Absolute? then 2 else 1 }

  function Size(p: seq<Slot>): nat
    decreases |p|
  {
    if p == [] then 0 else Width(p[0]) + Size(p[1..])
  }

  /** What pass 1 leaves: no code reaches the last address, and a line with a label has room for it. */
  predicate Shaped(l: Line) {
    && (l.assembly != [] ==> l.End() <= 65535)
    && (l.assembly != [] && l.code < 256 ==> l.assembly[0] == l.code)
    && (l.assembly != [] && l.code == DW ==> |l.assembly| == 2 * |l.params|)
    && (l.assembly != [] && l.code != DW && HasLabel(l.params) ==> |l.assembly| == Size(Pattern(l.code)))
  }

  predicate HasLabel(ps: seq<Param>) { exists j :: 0 <= j < |ps| && ps[j].Label? }

  /** The address of the first line with that label. */
  function Find(lines: seq<Line>, name: nat): Option<Address>
    decreases |lines|
  {
    if lines == [] then None
    else if lines[0].name == Some(name) && !lines[0].alias then Some(lines[0].address)
    else Find(lines[1..], name)
  }

  /** The line carries the label and is not another name for a line. */
  predicate Carries(l: Line, name: nat) { l.name == Some(name) && !l.alias }

  /** What is found is the address of a line that carries the label, with none before it. */
  lemma {:induction false} FindIs(lines: seq<Line>, name: nat) returns (i: nat)
    ensures i <= |lines| && forall j :: 0 <= j < i ==> !Carries(lines[j], name)
    ensures if i == |lines| then Find(lines, name).None?
            else Carries(lines[i], name) && Find(lines, name) == Some(lines[i].address)
    decreases |lines|
  {
    if lines == [] {
      i := 0;
    } else if Carries(lines[0], name) {
      i := 0;
    } else {
      i := FindIs(lines[1..], name);
      i := i + 1;
      assert forall j :: 0 < j < i ==> lines[j] == lines[1..][j - 1];
    }
  }

  datatype Fault = NoLabel | TooFar | Unexpected

  datatype Patched = Bytes(assembly: seq<Byte>) | Bad(error: Fault)

  function Low(x: int): Byte { x % 256 }

  function High(x: int): Byte { x / 256 % 256 }

  function Store(bs: seq<Byte>, k: nat, w: int): (r: seq<Byte>)
    requires k + 2 <= |bs|
    ensures |r| == |bs|
  {
    bs[k := Low(w)][k + 1 := High(w)]
  }

  /** The label's address, or its distance from the end of the instruction, where the pattern says. */
  function PatchFrom(p: seq<Slot>, k: nat, bs: seq<Byte>, target: Address, end: nat): (r: Patched)
    requires k <= |p| && (k < |p| ==> k + Size(p[k..]) <= |bs|)
    requires p != [] && p[0].Ope?
    ensures r.Bytes? ==> |r.assembly| == |bs| && (bs != [] ==> r.assembly[0] == bs[0])
    decreases |p| - k
  {
    if k == |p| then Bytes(bs) else
    var d := target - end;
    var next :=
      match p[k]
      case Near => if -128 <= d <= 127 then Bytes(bs[k := Low(d)]) else Bad(TooFar)
      case Far => if -32768 <= d <= 32767 then Bytes(Store(bs, k, d)) else Bad(TooFar)
      case Absolute => Bytes(Store(bs, k, target))
      case _ => Bytes(bs);
    if next.Bad? then next else PatchFrom(p, k + 1, next.assembly, target, end)
  }

  /** Parameter by parameter; an instruction has one label at most. */
  function PatchParams(lines: seq<Line>, l: Line, j: nat, bs: seq<Byte>): (r: Patched)
    requires j <= |l.params| && |bs| == |l.assembly| && bs != [] && Shaped(l)
    ensures r.Bytes? ==> |r.assembly| == |bs| && (l.code != DW ==> r.assembly[0] == bs[0])
    decreases |l.params| - j
  {
    if j == |l.params| then Bytes(bs)
    else if l.params[j].Other? then PatchParams(lines, l, j + 1, bs)
    else
      var a := Find(lines, l.params[j].name);
      if a.None? then Bad(NoLabel)
      else if l.code == DW then PatchParams(lines, l, j + 1, Store(bs, 2 * j, a.value))
      else PatchFrom(Pattern(l.code), 0, bs, a.value, l.End())
  }

  function PatchLine(lines: seq<Line>, l: Line): (r: Patched)
    requires Shaped(l)
    ensures r.Bytes? ==> |r.assembly| == |l.assembly|
    ensures r.Bytes? && l.assembly != [] && l.code != DW ==> r.assembly[0] == l.assembly[0]
  {
    if l.assembly == [] || l.params == [] then Bytes(l.assembly) else PatchParams(lines, l, 0, l.assembly)
  }

  // ----- committing lines -----

  /** A new line must not use a cell in use. */
  function AddLine(m: Cells, l: Line): Filled { Fill(m, l.address, l.assembly, false) }

  function AddLines(m: Cells, ls: seq<Line>): Filled
    decreases |ls|
  {
    if ls == [] then Full(m) else
    match AddLine(m, ls[0])
    case Clash(e) => Clash(e)
    case Full(m') => AddLines(m', ls[1..])
  }

  predicate InUse(m: Cells, l: Line) { forall a :: l.address <= a < l.End() ==> a in m }

  datatype Table = Table(lines: seq<Line>, cells: Cells) | Broken(error: Fault)

  /** Pass 2 from line i on. */
  function Pass2(lines: seq<Line>, m: Cells, i: nat): Table
    requires i <= |lines| && AllShaped(lines)
    decreases |lines| - i
  {
    if i == |lines| then Table(lines, m) else
    var l := lines[i];
    if l.assembly == [] || l.params == [] then Pass2(lines, m, i + 1) else
    match PatchLine(lines, l)
    case Bad(e) => Broken(e)
    case Bytes(bs) =>
      if !InUse(m, l) then Broken(Unexpected)
      else
        ShapedKept(lines, i, bs);
        Pass2(lines[i := l.(assembly := bs)], m + Patch(l.address, bs), i + 1)
  }

  predicate AllShaped(lines: seq<Line>) { forall i :: 0 <= i < |lines| ==> Shaped(lines[i]) }

  lemma ShapedKept(lines: seq<Line>, i: nat, bs: seq<Byte>)
    requires i < |lines| && AllShaped(lines) && |bs| == |lines[i].assembly| 
    requires bs != [] && lines[i].code != DW ==> bs[0] == lines[i].assembly[0]
    ensures AllShaped(lines[i := lines[i].(assembly := bs)])
  {
    assert Shaped(lines[i]);
  }

  // ----- the code map is the lines -----

  ghost predicate Disjoint(lines: seq<Line>) {
    forall i, j, a :: 0 <= i < j < |lines| && lines[i].Covers(a) ==> !lines[j].Covers(a)
  }

  /** The cells in use are those of the lines, with the lines' bytes. */
  ghost predicate IsUnion(m: Cells, lines: seq<Line>) {
    && (forall i, a :: 0 <= i < |lines| && lines[i].Covers(a) ==> a in m && m[a] == lines[i].At(a))
    && (forall a :: a in m ==> Covered(lines, a))
  }

  ghost predicate Covered(lines: seq<Line>, a: int) { exists i :: 0 <= i < |lines| && lines[i].Covers(a) }
}
