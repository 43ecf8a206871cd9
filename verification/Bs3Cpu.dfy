/** The jumps, calls and address loads of the BS3, and what a patched instruction does. */
module Bs3Cpu {
  import opened Options
  import opened CodeMap
  import opened Reloc
  import opened RelocOk

  datatype Flags = Flags(c: bool, z: bool, v: bool, n: bool)

  datatype Cpu = Cpu(pc: Address, sp: Address, w: seq<Address>, f: Flags, m: seq<Byte>) {
    predicate Valid() { |w| == 4 && |m| == 65536 }
  }

  function Wrap(a: int): Address { a % 65536 }

  /** A byte past the end of memory reads as 0 and is not written. */
  function ReadByte(m: seq<Byte>, a: nat): Byte { if a < |m| then m[a] else 0 }

  function ReadWord(m: seq<Byte>, a: nat): Address { Word(ReadByte(m, a), ReadByte(m, a + 1)) }

  function WriteByte(m: seq<Byte>, a: nat, b: Byte): (r: seq<Byte>)
    ensures |r| == |m|
  {
    if a < |m| then m[a := b] else m
  }

  function WriteWord(m: seq<Byte>, a: nat, w: int): (r: seq<Byte>)
    ensures |r| == |m|
  {
    WriteByte(WriteByte(m, a, Low(w)), a + 1, High(w))
  }

  /** The condition of a conditional jump. */
  predicate Taken(op: Byte, f: Flags) {
    match op
    case 0x40 => f.z
    case 0x41 => !f.z
    case 0x42 => f.c
    case 0x43 => !f.c
    case 0x44 => f.n
    case 0x45 => !f.n
    case 0x46 => f.v
    case 0x47 => !f.v
    case 0x48 => f.c && !f.z
    case 0x49 => !f.c || f.z
    case 0x4A => f.n == f.v
    case 0x4B => f.n != f.v
    case 0x4C => f.n == f.v && !f.z
    case 0x4D => f.n != f.v || f.z
    case _ => true
  }

  /** One instruction, or None for an instruction of another kind. */
  function Exec(s: Cpu): (r: Option<Cpu>)
    requires s.Valid()
    ensures r.Some? ==> r.value.Valid()
  {
    var op := s.m[s.pc];
    var p := Wrap(s.pc + 1);
    var sp := Wrap(s.sp - 2);
    if 0x10 <= op <= 0x13 then
      Some(s.(w := s.w[op - 0x10 := Wrap(p + Signed16(ReadWord(s.m, p)) + 2)], pc := Wrap(p + 2)))
    else if 0x14 <= op <= 0x17 then
      Some(s.(w := s.w[op - 0x14 := Wrap(p + Signed8(ReadByte(s.m, p)) + 1)], pc := Wrap(p + 1)))
    else if op == 0x3C then Some(s.(pc := ReadWord(s.m, s.sp), sp := Wrap(s.sp + 2)))
    else if op == 0x3E then Some(s.(pc := ReadWord(s.m, p)))
    else if op == 0x3F then
      var m := WriteWord(s.m, sp, Wrap(p + 2));
      Some(s.(pc := ReadWord(m, p), sp := sp, m := m))
    else if op == 0x4E then Some(s.(pc := Wrap(1 + p + Signed8(ReadByte(s.m, p)))))
    else if op == 0x4F then
      var m := WriteWord(s.m, sp, Wrap(p + 1));
      Some(s.(pc := Wrap(1 + p + Signed8(ReadByte(m, p))), sp := sp, m := m))
    else if 0x40 <= op <= 0x4D then
      Some(s.(pc := if Taken(op, s.f) then Wrap(2 + s.pc + Signed8(ReadByte(s.m, p))) else Wrap(s.pc + 2)))
    else None
  }

  // ----- patched instructions in memory -----

  /** The map's bytes are in memory. */
  predicate Holds(mem: seq<Byte>, m: Cells)
    requires |mem| == 65536
  {
    forall a :: a in m ==> mem[a] == m[a]
  }

  predicate Branches(code: nat) { 0x10 <= code <= 0x17 || code == 0x3E || code == 0x3F || 0x40 <= code <= 0x4F }

  predicate Calls(code: nat) { code == 0x3F || code == 0x4F }

  /** What the instruction means with its label at the target: the address is loaded, jumped to or called. */
  function Meant(s: Cpu, code: nat, target: Address, end: Address): Cpu
    requires s.Valid() && Branches(code)
  {
    if code <= 0x17 then s.(w := s.w[code % 4 := target], pc := end)
    else if Calls(code) then s.(pc := target, sp := Wrap(s.sp - 2), m := WriteWord(s.m, Wrap(s.sp - 2), end))
    else s.(pc := if Taken(code, s.f) then target else end)
  }

  /** A call does not push its return address over itself. */
  predicate StackApart(s: Cpu, l: Line) {
    Calls(l.code) ==> var sp := Wrap(s.sp - 2); sp >= l.End() || sp + 2 <= l.address
  }

  /** Memory has the line's bytes at its address. */
  predicate Placed(mem: seq<Byte>, l: Line)
    requires |mem| == 65536
  {
    l.End() <= 65536 && forall k :: 0 <= k < |l.assembly| ==> mem[l.address + k] == l.assembly[k]
  }

  /** The line at the program counter, saying the target at its place. */
  predicate Ready(s: Cpu, l: Line, target: Address) {
    && s.Valid() && Branches(l.code) && s.pc == l.address && l.End() <= 65535
    && |l.assembly| == Place(l.code) + Width(Pattern(l.code)[Place(l.code)])
    && Placed(s.m, l) && l.assembly[0] == l.code
    && Says(Pattern(l.code)[Place(l.code)], l.assembly, Place(l.code), target, l.End())
    && StackApart(s, l)
  }

  /** What the instruction finds behind its code. */
  lemma Operand(s: Cpu, l: Line, target: Address)
    requires Ready(s, l, target)
    ensures Wrap(s.pc + 1) == s.pc + 1 && s.m[s.pc] == l.code
    ensures |l.assembly| == 2 ==> l.End() + Signed8(s.m[s.pc + 1]) == target
    ensures |l.assembly| == 3 ==>
              var w := Word(s.m[s.pc + 1], s.m[s.pc + 2]);
              (if l.code <= 0x17 then l.End() + Signed16(w) else w) == target
  {
    assert s.m[l.address + 0] == l.code;
    assert s.m[l.address + 1] == l.assembly[1];
    if |l.assembly| == 3 {
      assert s.m[l.address + 2] == l.assembly[2];
    }
  }

  lemma WroteApart(m: seq<Byte>, a: nat, w: int, x: nat)
    requires x < |m| && (x < a || a + 2 <= x)
    ensures WriteWord(m, a, w)[x] == m[x]
  {
  }

  lemma ExecCall(s: Cpu, l: Line, target: Address)
    requires Ready(s, l, target) && Calls(l.code)
    ensures Exec(s) == Some(Meant(s, l.code, target, l.End()))
  {
    hide Ready, WriteWord, Signed8, Signed16, Word, Placed, Says, Pattern, Taken;
    CallShape(s, l, target);
    Operand(s, l, target);
    var p := s.pc + 1;
    var sp := Wrap(s.sp - 2);
    WroteApart(s.m, sp, l.End(), p);
    if |l.assembly| == 3 {
      WroteApart(s.m, sp, l.End(), p + 1);
    }
  }

  lemma CallShape(s: Cpu, l: Line, target: Address)
    requires Ready(s, l, target) && Calls(l.code)
    ensures s.Valid() && StackApart(s, l) && s.pc == l.address && l.End() <= 65535
    ensures |l.assembly| == if l.code == 0x3F then 3 else 2
  {
  }

  lemma Unconditional(f: Flags)
    ensures Taken(0x3E, f) && Taken(0x4E, f)
  {
  }

  /** An instruction whose place says the target does what it means. */
  lemma ExecMeant(s: Cpu, l: Line, target: Address)
    requires Ready(s, l, target)
    ensures Exec(s) == Some(Meant(s, l.code, target, l.End()))
  {
    hide Signed16, Signed8, Word, WriteWord, Placed, Says, Taken;
    if Calls(l.code) {
      ExecCall(s, l, target);
    } else {
      Operand(s, l, target);
      Unconditional(s.f);
    }
  }

  /** After pass 2, a jump, call or address load with a label, run from memory that holds the code map, does what
    * it means with the label's address, whatever the registers and flags. */
  lemma {:induction false} LabelReached(ls: seq<Line>, added: Cells, i: nat, s: Cpu)
    requires AllShaped(ls) && AddLines(map[], ls) == Full(added) && Pass2(ls, added, 0).Table?
    requires i < |ls| && ls[i].assembly != [] && Branches(ls[i].code) && LabelOf(ls[i].params).Some?
    requires s.Valid() && s.pc == ls[i].address && Holds(s.m, Pass2(ls, added, 0).cells) && StackApart(s, ls[i])
    ensures var target := Find(ls, LabelOf(ls[i].params).value);
            target.Some? && Exec(s) == Some(Meant(s, ls[i].code, target.value, ls[i].End()))
  {
    hide Pass2, AddLines, Exec, Meant, IsUnion, Disjoint, CanPatch, PatchLine, Shaped, Says, Placed, Pattern;
    PassOne(ls);
    PassTwo(ls);
    var t := Pass2(ls, added, 0);
    var l, l' := ls[i], Final(ls, ls[i]);
    Patchable(ls, i);
    assert l.code != DW;
    InstructionPatched(ls, l);
    PatchedShape(ls, i);
    InPlace(s.m, t.cells, t.lines, i);
    ExecMeant(s, l', Find(ls, LabelOf(l.params).value).value);
  }

  lemma Patchable(ls: seq<Line>, i: nat)
    requires AllShaped(ls) && CanPatch(ls, 0) && i < |ls|
    ensures Shaped(ls[i]) && PatchLine(ls, ls[i]).Bytes?
  {
  }

  lemma PatchedShape(ls: seq<Line>, i: nat)
    requires AllShaped(ls) && CanPatch(ls, 0) && i < |ls| && ls[i].assembly != [] && Branches(ls[i].code)
    ensures var l := Final(ls, ls[i]);
            l.End() == ls[i].End() <= 65535 && l.assembly != [] && l.assembly[0] == l.code == ls[i].code
  {
  }

  lemma InPlace(mem: seq<Byte>, m: Cells, lines: seq<Line>, i: nat)
    requires |mem| == 65536 && Holds(mem, m) && IsUnion(m, lines) && i < |lines|
    requires lines[i].End() <= 65536
    ensures Placed(mem, lines[i])
  {
    var l := lines[i];
    forall k | 0 <= k < |l.assembly| ensures mem[l.address + k] == l.assembly[k] {
      assert l.Covers(l.address + k);
    }
  }

  /** RET with the stack as the call left it goes back to the instruction after the call. */
  lemma CallThenReturn(s: Cpu, u: Cpu, code: nat, target: Address, end: Address)
    requires s.Valid() && u.Valid() && Calls(code) && s.sp != 1
    requires var t := Meant(s, code, target, end);
             u.sp == t.sp && u.m[u.pc] == 0x3C && u.m[t.sp] == t.m[t.sp] && u.m[t.sp + 1] == t.m[t.sp + 1]
    ensures Exec(u) == Some(u.(pc := end, sp := s.sp))
  {
    Encoded16(end);
    assert Wrap(Wrap(s.sp - 2) + 2) == s.sp;
  }
}
