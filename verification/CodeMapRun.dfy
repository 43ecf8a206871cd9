/** The code map as the program keeps it: arrays written in place and maps linked by next. */
module CodeMapRun {
  import opened Options
  import opened CodeMap

  lemma BlocksSkip(m: Cells, a: nat)
    requires a < 65536 && a !in m
    ensures Blocks(m, a) == Blocks(m, a + 1)
  {
  }

  lemma {:induction false} BlocksHead(m: Cells, s: nat)
    requires s < 65536 && s in m
    ensures Blocks(m, s) == [Data(s, Span(m, s, FirstFree(m, s)))] + Blocks(m, FirstFree(m, s))
  {
  }

  /** What a save still has to write from cell a on. */
  function ToWrite(m: Cells, f: Format, a: nat): seq<Byte>
    requires a <= 65536
  {
    RenderBlocks(f, Blocks(m, a)) + Ending(f)
  }

  lemma {:induction false} WriteHead(m: Cells, f: Format, s: nat)
    requires s < 65536 && s in m
    ensures ToWrite(m, f, s) ==
            RenderBlock(f, Data(s, Span(m, s, FirstFree(m, s)))) + ToWrite(m, f, FirstFree(m, s))
  {
    hide Blocks, Span, FirstFree, RenderBlock, Ending;
    BlocksHead(m, s);
    var e := FirstFree(m, s);
    assert Blocks(m, s)[1..] == Blocks(m, e);
  }

  lemma WriteEnd(m: Cells, f: Format)
    ensures ToWrite(m, f, 65536) == Ending(f)
  {
    assert Blocks(m, 65536) == [];
  }

  datatype SaveState = SearchStart | SearchEnd | Transfer

  class Map {
    const code: array<Byte>
    const inUse: array<bool>
    var rombank: Option<Byte>
    var rambank: Option<Byte>
    var next: Map?

    ghost predicate Sized() { code.Length == 65536 && inUse.Length == 65536 }

    ghost function Contents(): (m: Cells)
      reads code, inUse
      requires Sized()
    {
      map a | 0 <= a < 65536 && inUse[a] :: code[a]
    }

    ghost function View(): Node
      reads this`rombank, this`rambank, code, inUse
      requires Sized()
    {
      Node(Contents(), Banks(rombank, rambank))
    }

    constructor ()
      ensures Sized() && fresh(code) && fresh(inUse) && View() == Blank && next == null
    {
      code := new Byte[65536](_ => 0);
      inUse := new bool[65536](_ => false);
      rombank, rambank, next := Some(0), Some(0), null;
    }

    /** One cell is written and is in use from now on. */
    method SetCell(a: nat, b: Byte)
      requires Sized() && a < 65536
      modifies code, inUse
      ensures Contents() == old(Contents())[a := b]
    {
      code[a], inUse[a] := b, true;
    }

    /** Forget every cell and the maps linked behind. */
    method Reset()
      requires Sized()
      modifies this`next, code, inUse
      ensures Contents() == map[] && next == null
    {
      var i := 0;
      while i < 65536
        invariant 0 <= i <= 65536
        invariant forall a :: 0 <= a < i ==> !inUse[a]
      {
        code[i], inUse[i] := 0, false;
        i := i + 1;
      }
      next := null;
    }

    method WriteBinary(startBlock: nat, endBlock: nat) returns (out: seq<Byte>)
      requires Sized() && startBlock <= endBlock <= 65536
      requires forall a :: startBlock <= a < endBlock ==> a in Contents()
      ensures out == RenderBlock(Binary, Data(startBlock, Span(Contents(), startBlock, endBlock)))
    {
      var lenBlock, a := endBlock - startBlock, startBlock;
      out := Word2(startBlock) + Word2(lenBlock);
      while a < endBlock
        invariant startBlock <= a <= endBlock
        invariant out == Word2(startBlock) + Word2(lenBlock) + Span(Contents(), startBlock, a)
      {
        out := out + [code[a]];
        a := a + 1;
      }
      assert out == Word2(startBlock) + (Word2(lenBlock) + Span(Contents(), startBlock, endBlock));
    }

    method WriteHexa(startBlock: nat, endBlock: nat) returns (out: seq<Byte>)
      requires Sized() && startBlock <= endBlock <= 65536
      requires forall a :: startBlock <= a < endBlock ==> a in Contents()
      ensures out == RenderBlock(Hexa, Data(startBlock, Span(Contents(), startBlock, endBlock)))
    {
      hide Hex2, Hex4, Span, HexBytes;
      var lenBlock, a := endBlock - startBlock, startBlock;
      ghost var all := HexBytes(Span(Contents(), startBlock, endBlock), 0);
      var header := Hex4(startBlock) + [COMMA] + Hex4(lenBlock) + [NL];
      out := header;
      lenBlock := 0;
      while a < endBlock
        invariant startBlock <= a <= endBlock
        invariant lenBlock == a - startBlock
        invariant out + HexBytes(Span(Contents(), a, endBlock), lenBlock) == header + all
      {
        var line := if (lenBlock + 1) % 40 == 0 then [NL] else [];
        HexStep(Contents(), a, endBlock, lenBlock);
        out := out + (Hex2(code[a]) + line);
        a := a + 1;
        lenBlock := lenBlock + 1;
        assert out + HexBytes(Span(Contents(), a, endBlock), lenBlock) == header + all;
      }
      HexEnd(Contents(), a, lenBlock);
      if lenBlock % 40 != 0 { out := out + [NL]; }
      assert out == header + all;
    }

    static lemma {:induction false} HexStep(m: Cells, a: nat, end: nat, k: nat)
      requires a < end && forall x :: a <= x < end ==> x in m
      ensures HexBytes(Span(m, a, end), k) ==
              Hex2(m[a]) + ((if (k + 1) % 40 == 0 then [NL] else []) + HexBytes(Span(m, a + 1, end), k + 1))
    {
      hide Hex2;
      assert Span(m, a, end)[0] == m[a] && Span(m, a, end)[1..] == Span(m, a + 1, end);
    }

    static lemma {:induction false} HexEnd(m: Cells, a: nat, k: nat)
      ensures HexBytes(Span(m, a, a), k) == if k % 40 != 0 then [NL] else []
    {
    }

    /** The file written for this map. */
    method SaveTo(f: Format) returns (out: seq<Byte>)
      requires Sized()
      ensures out == Save(Contents(), f)
    {
      hide Blocks, RenderBlock, Ending, FirstFree, Span, ToWrite;
      ghost var m := Contents();
      out := Signature(f) + (if f.Hexa? then [NL] else []);
      var startBlock, endBlock, state := 0, 0, SearchStart;
      assert Save(m, f) == out + ToWrite(m, f, 0) by { SaveIs(m, f); }
      while !(state.SearchStart? && startBlock == 65536)
        invariant 0 <= startBlock <= endBlock <= 65536 || state.SearchStart?
        invariant 0 <= startBlock <= 65536
        invariant Save(m, f) == out + ToWrite(m, f, startBlock)
        invariant !state.SearchStart? ==> startBlock < 65536 && startBlock in m
        invariant state.SearchEnd? ==> endBlock == startBlock
        invariant state.Transfer? ==> endBlock == FirstFree(m, startBlock)
        decreases 65536 - startBlock, match state case SearchStart => 2 case SearchEnd => 1 case Transfer => 0
      {
        match state {
          case SearchStart =>
            while startBlock <= 65535 && !inUse[startBlock]
              invariant 0 <= startBlock <= 65536
              invariant Save(m, f) == out + ToWrite(m, f, startBlock)
            {
              WriteSkip(m, f, startBlock);
              startBlock := startBlock + 1;
            }
            if startBlock < 65536 {
              state := SearchEnd;
              endBlock := startBlock;
            }
          case SearchEnd =>
            while endBlock <= 65535 && inUse[endBlock]
              invariant startBlock <= endBlock <= 65536
              invariant FirstFree(m, endBlock) == FirstFree(m, startBlock)
            {
              FreeSkip(m, endBlock);
              endBlock := endBlock + 1;
            }
            FreeHere(m, endBlock);
            state := Transfer;
          case Transfer =>
            WriteHead(m, f, startBlock);
            FreeAfter(m, startBlock);
            var block: seq<Byte>;
            if f.Binary? {
              block := WriteBinary(startBlock, endBlock);
            } else {
              block := WriteHexa(startBlock, endBlock);
            }
            assert out + (block + ToWrite(m, f, endBlock)) == out + block + ToWrite(m, f, endBlock);
            out := out + block;
            startBlock := endBlock;
            state := SearchStart;
        }
      }
      WriteEnd(m, f);
      out := out + Ending(f);
    }
  }

  lemma AnnounceText(f: Format, rom: Byte, ram: Byte)
    ensures RenderSection(Section(f, [Announce(rom, ram)])) ==
            Signature(f) + if f.Binary? then [0xFF, 0xFF, 3, 0] + ([0, rom, ram] + [0, 0, 0, 0])
                           else [NL] + ([70, 70, 70, 70, COMMA] + ([48, 48, 48, 51, NL] +
                                ([48, 48, Digit(rom / 16), Digit(rom % 16), Digit(ram / 16), Digit(ram % 16)] +
                                 ([NL] + ([48, 48, 48, 48, COMMA] + [48, 48, 48, 48, NL])))))
  {
    hide Signature, RenderBlock, Ending, Digit;
    AnnounceBlock(f, rom, ram);
    assert RenderBlocks(f, [Announce(rom, ram)]) == RenderBlock(f, Announce(rom, ram)) + [];
  }

  lemma AnnounceBlock(f: Format, rom: Byte, ram: Byte)
    ensures RenderBlock(f, Announce(rom, ram)) + Ending(f) ==
            if f.Binary? then [0xFF, 0xFF, 3, 0] + ([0, rom, ram] + [0, 0, 0, 0])
            else [70, 70, 70, 70, COMMA] + ([48, 48, 48, 51, NL] +
                 ([48, 48, Digit(rom / 16), Digit(rom % 16), Digit(ram / 16), Digit(ram % 16)] +
                  ([NL] + ([48, 48, 48, 48, COMMA] + [48, 48, 48, 48, NL]))))
  {
    hide Hex4, Hex2, HexBytes, Digit;
    if f.Hexa? {
      HexDigits();
      TwoDigits(rom);
      TwoDigits(ram);
    }
  }

  lemma HexDigits()
    ensures Hex4(0xFFFF) == [70, 70, 70, 70] && Hex4(3) == [48, 48, 48, 51] && Hex4(0) == [48, 48, 48, 48]
    ensures Hex2(0) == [48, 48]
  {
  }

  lemma TwoDigits(b: Byte)
    ensures Hex2(b) == [Digit(b / 16), Digit(b % 16)]
  {
  }

  /** The announcement and the embedded file, appended byte by byte. */
  method EmbedTo(file: seq<Byte>, embedded: seq<Byte>, rom: Byte, ram: Byte, f: Format) returns (out: seq<Byte>)
    ensures out == Embed(file, embedded, rom, ram, f)
  {
    hide Digit, RenderSection, Signature;
    var announce: seq<Byte>;
    if f.Binary? {
      announce := [0xFF, 0xFF, 3, 0] + ([0, rom, ram] + [0, 0, 0, 0]);
    } else {
      announce := [NL] + ([70, 70, 70, 70, COMMA] + ([48, 48, 48, 51, NL] +
                  ([48, 48, Digit(rom / 16), Digit(rom % 16), Digit(ram / 16), Digit(ram % 16)] +
                   ([NL] + ([48, 48, 48, 48, COMMA] + [48, 48, 48, 48, NL])))));
    }
    AnnounceText(f, rom, ram);
    out := file + (Signature(f) + announce);
    ghost var front := out;
    var i := 0;
    while i < |embedded|
      invariant 0 <= i <= |embedded|
      invariant out == front + embedded[..i]
    {
      out := out + [embedded[i]];
      i := i + 1;
    }
    assert embedded[..i] == embedded;
  }

  lemma SaveIs(m: Cells, f: Format)
    ensures Save(m, f) == (Signature(f) + (if f.Hexa? then [NL] else [])) + ToWrite(m, f, 0)
  {
  }

  lemma WriteSkip(m: Cells, f: Format, a: nat)
    requires a < 65536 && a !in m
    ensures ToWrite(m, f, a) == ToWrite(m, f, a + 1)
  {
    BlocksSkip(m, a);
  }

  lemma FreeSkip(m: Cells, a: nat)
    requires a < 65536 && a in m
    ensures FirstFree(m, a) == FirstFree(m, a + 1)
  {
  }

  lemma {:induction false} FreeHere(m: Cells, a: nat)
    requires a <= 65536 && a !in m
    ensures FirstFree(m, a) == a
  {
  }

  lemma {:induction false} FreeAfter(m: Cells, a: nat)
    requires a < 65536 && a in m
    ensures a < FirstFree(m, a)
  {
  }
}
