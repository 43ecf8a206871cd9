/** The word comparisons of the BS3 and what the conditional jumps make of their flags. */
module Bs3Compare {
  import opened Reloc
  import opened RelocOk
  import opened Bs3Cpu

  /** The sum of two words; `agree` says whether the operands have one sign. */
  function SumFlags(x: Address, neg: Address, agree: bool): Flags {
    var r := Wrap(x + neg);
    Flags(x + neg >= 65536, r == 0, agree && (r >= 32768) != (x >= 32768), r >= 32768)
  }

  /** CMP of two registers adds the negated second operand to the first. */
  function Compare(x: Address, y: Address): Flags {
    var neg := Wrap(65536 - y);
    SumFlags(x, neg, (x >= 32768) == (neg >= 32768))
  }

  /** CMP with an immediate word takes the sign of the negated operand the wrong way round. */
  function CompareImm(x: Address, y: Address): Flags {
    var neg := Wrap(65536 - y);
    SumFlags(x, neg, (x >= 32768) == (neg < 32768))
  }

  lemma NegIs(y: Address)
    ensures Wrap(65536 - y) == if y == 0 then 0 else 65536 - y
  {
  }

  /** The unsigned names, and carry and zero, after either comparison. Against 0 there is no carry, so the jumps take
      every word to be below it. */
  lemma UnsignedJumps(x: Address, y: Address, f: Flags)
    requires f == Compare(x, y) || f == CompareImm(x, y)
    ensures (Taken(0x40, f) <==> x == y) && (Taken(0x41, f) <==> x != y)
    ensures (Taken(0x42, f) <==> x >= y && y != 0) && (Taken(0x43, f) <==> x < y || y == 0)
    ensures (Taken(0x48, f) <==> x > y && y != 0) && (Taken(0x49, f) <==> x <= y || y == 0)
  {
    NegIs(y);
  }

  /** The signed names after a comparison of registers are right for every second operand but the lowest, which
      every word is taken to be less than. */
  lemma SignedJumps(x: Address, y: Address)
    ensures var f, a, b := Compare(x, y), Signed16(x), Signed16(y);
            && (Taken(0x4B, f) <==> a < b || y == 0x8000) && (Taken(0x4A, f) <==> a >= b && y != 0x8000)
            && (Taken(0x4D, f) <==> a <= b || y == 0x8000) && (Taken(0x4C, f) <==> a > b && y != 0x8000)
  {
    NegIs(y);
  }

  /** The flags by themselves: the sign of the difference in 16 bits, and whether it has overflowed. */
  lemma FlagJumps(x: Address, y: Address)
    ensures var f, d := Compare(x, y), Signed16(x) - Signed16(y);
            && (Taken(0x44, f) <==> Wrap(d) >= 32768) && (Taken(0x45, f) <==> Wrap(d) < 32768)
            && (y != 0x8000 ==> (Taken(0x46, f) <==> d < -32768 || d > 32767))
            && (Taken(0x47, f) <==> !Taken(0x46, f))
  {
    NegIs(y);
  }

  /** The first word is not below the second with both positive or 0, nor at or above it with both negative, and the
      difference fits in 16 bits; the lowest word may be compared with any. */
  predicate ImmKeeps(a: int, b: int) {
    b == -32768 || (!(0 <= a < b) && !(b <= a < 0) && -32768 <= a - b <= 32767)
  }

  /** The signed names after a comparison with an immediate are right exactly under that condition. */
  lemma SignedImmJumps(x: Address, y: Address)
    ensures var f, a, b := CompareImm(x, y), Signed16(x), Signed16(y);
            && ((Taken(0x4B, f) <==> a < b) <==> ImmKeeps(a, b))
            && (Taken(0x4A, f) <==> !Taken(0x4B, f))
            && (Taken(0x4C, f) <==> Taken(0x4A, f) && a != b) && (Taken(0x4D, f) <==> Taken(0x4B, f) || a == b)
  {
    NegIs(y);
  }

  /** `CMP W0, 5` with 3 in W0 is not followed by a jump on less. */
  lemma ThreeIsNotLess()
    ensures !Taken(0x4B, CompareImm(3, 5)) && Taken(0x4B, Compare(3, 5))
  {
  }
}
