/** 16-bit machine words, as integers with explicit wrap-around. */
module Words {

  type Word = x: int | 0 <= x < 0x10000

  type Memory = m: seq<Word> | |m| == 0x10000 witness seq(0x10000, i => 0)

  function Add(x: Word, y: Word): Word { (x + y) % 0x10000 }

  function Sub(x: Word, y: Word): Word { (x - y) % 0x10000 }

  predicate Negative(x: Word) { x >= 0x8000 }

  /** The two's complement reading of a word. */
  function Signed(x: Word): int { if Negative(x) then x - 0x10000 else x }

  datatype BitFn = AndF | OrF | XorF {
    predicate On(a: bool, b: bool) {
      match this
      case AndF => a && b
      case OrF => a || b
      case XorF => a != b
    }
  }

  function Pow2(k: nat): (r: nat)
    ensures r > 0
  {
    if k == 0 then 1 else 2 * Pow2(k - 1)
  }

  /** Apply a bit operation to the k low bits of x and y. */
  function Bitwise(f: BitFn, k: nat, x: nat, y: nat): (r: nat)
    ensures r < Pow2(k)
  {
    if k == 0 then 0
    else (if f.On(x % 2 == 1, y % 2 == 1) then 1 else 0) + 2 * Bitwise(f, k - 1, x / 2, y / 2)
  }

  lemma Pow2Of16()
    ensures Pow2(16) == 0x10000
  {
    assert Pow2(4) == 16;
    assert Pow2(8) == 256;
    assert Pow2(12) == 4096;
  }

  function Bits(f: BitFn, x: Word, y: Word): Word
  {
    Pow2Of16();
    Bitwise(f, 16, x, y)
  }

  lemma {:induction false} OrZero(k: nat, h: nat)
    requires h < Pow2(k)
    ensures Bitwise(OrF, k, 0, h) == h
  {
    if k > 0 {
      OrZero(k - 1, h / 2);
    }
  }

  /** A constant built as low nibble OR high twelve bits, the way AR0, CPY, AR0, OR builds it. */
  lemma OrNibbles(v: Word)
    ensures Bits(OrF, v % 16, v / 16 * 16) == v
  {
    var l, h := v % 16, v / 16 * 16;
    Pow2Of16();
    assert Pow2(12) == 4096 by { assert Pow2(4) == 16; assert Pow2(8) == 256; }
    OrZero(12, v / 16);
    var b0 := Bitwise(OrF, 12, l / 2 / 2 / 2 / 2, h / 2 / 2 / 2 / 2);
    assert b0 == v / 16;
    var b1 := Bitwise(OrF, 13, l / 2 / 2 / 2, h / 2 / 2 / 2);
    var b2 := Bitwise(OrF, 14, l / 2 / 2, h / 2 / 2);
    var b3 := Bitwise(OrF, 15, l / 2, h / 2);
  }

  lemma {:induction false} XorOnes(k: nat, v: nat)
    requires v < Pow2(k)
    ensures Bitwise(XorF, k, Pow2(k) - 1, v) == Pow2(k) - 1 - v
  {
    if k > 0 {
      XorOnes(k - 1, v / 2);
      assert (Pow2(k) - 1) / 2 == Pow2(k - 1) - 1;
    }
  }

  /** XOR with 0xFFFF is the one's complement. */
  lemma XorIsComplement(v: Word)
    ensures Bits(XorF, 0xFFFF, v) == 0xFFFF - v
  {
    Pow2Of16();
    XorOnes(16, v);
  }
}
