/** Reading back what was written: every rendered section loads as the blocks it was rendered from. */
module CodeMapRead {
  import opened Options
  import opened CodeMap

  // ----- blocks without their encoding -----

  function Fill(m: Cells, a: nat, bs: seq<Byte>, overlap: bool): Filled
    decreases |bs|
  {
    if bs == [] then Full(m) else
    match PutByte(m, a, bs[0], overlap)
    case Clash(e) => Clash(e)
    case Full(m') => Fill(m', a + 1, bs[1..], overlap)
  }

  datatype Tried = Done(chain: Chain) | Broke(error: Error)

  /** An announcement opens a new map under its banks. In hexadecimal the map before it takes the
    * announced ROM bank as well: the loader names the current map again between the two bank numbers. */
  function Step(f: Format, b: Block, c: Chain, overlap: bool): Tried {
    match b
    case Data(a, bs) =>
      (match Fill(c.cur.cells, a, bs, overlap) case Clash(e) => Broke(e) case Full(m) => Done(c.WithCells(m)))
    case Announce(rom, ram) =>
      var k := Banks(Some(rom), Some(ram));
      if f.Binary? then Done(c.NewMap(k))
      else Done(c.(cur := c.cur.(banks := c.banks.(rom := Some(rom)))).NewMap(k))
  }

  function RunBlocks(f: Format, bs: seq<Block>, c: Chain, overlap: bool): Tried
    decreases |bs|
  {
    if bs == [] then Done(c.Named()) else
    match Step(f, bs[0], c.Named(), overlap)
    case Broke(e) => Broke(e)
    case Done(c') => RunBlocks(f, bs[1..], c', overlap)
  }

  function RunSections(ss: seq<Section>, c: Chain, overlap: bool): Tried
    decreases |ss|
  {
    if ss == [] then Done(c) else
    match RunBlocks(ss[0].format, ss[0].blocks, c, overlap)
    case Broke(e) => Broke(e)
    case Done(c') => RunSections(ss[1..], c', overlap)
  }

  /** The outcome of a load that reads up to rest. */
  function Read(t: Tried, rest: seq<Byte>): Outcome {
    match t
    case Broke(e) => Failed(e)
    case Done(c) => Loaded(c, rest)
  }

  /** What the two sixteen-bit fields of a block can say. */
  predicate Plain(b: Block) {
    b.Data? ==> b.addr < 65536 && 0 < |b.bytes| < 65536 && (b.addr == 65535 ==> |b.bytes| == 1)
  }

  predicate AllPlain(bs: seq<Block>) { forall i :: 0 <= i < |bs| ==> Plain(bs[i]) }

  predicate PlainSections(ss: seq<Section>) { forall i :: 0 <= i < |ss| ==> AllPlain(ss[i].blocks) }

  // ----- binary -----

  lemma {:induction false} PutBytesFill(bs: seq<Byte>, rest: seq<Byte>, c: Chain, a: nat, overlap: bool)
    ensures PutBytes(bs + rest, c, a, |bs|, overlap) ==
            var r := Fill(c.cur.cells, a, bs, overlap);
            if r.Clash? then Failed(r.error) else Loaded(c.WithCells(r.cells), rest)
    decreases |bs|
  {
    if bs == [] {
      assert bs + rest == rest;
    } else {
      assert (bs + rest)[1..] == bs[1..] + rest;
      var r := PutByte(c.cur.cells, a, bs[0], overlap);
      if r.Full? {
        PutBytesFill(bs[1..], rest, c.WithCells(r.cells), a + 1, overlap);
      }
    }
  }

  lemma WordOk(w: nat)
    requires w < 65536
    ensures Word(Word2(w)[0], Word2(w)[1]) == w
  {
  }

  lemma {:induction false} BinData(a: nat, bs: seq<Byte>, rest: seq<Byte>, c: Chain, overlap: bool)
    requires Plain(Data(a, bs))
    ensures LoadBin(RenderBlock(Binary, Data(a, bs)) + rest, c, overlap) ==
            var r := Fill(c.cur.cells, a, bs, overlap);
            if r.Clash? then Failed(r.error) else LoadBin(rest, c.Named().WithCells(r.cells), overlap)
  {
    var file := RenderBlock(Binary, Data(a, bs)) + rest;
    WordOk(a);
    WordOk(|bs|);
    assert file == Word2(a) + (Word2(|bs|) + (bs + rest));
    assert file[4..] == bs + rest;
    PutBytesFill(bs, rest, c.Named(), a, overlap);
  }

  lemma {:induction false} BinAnnounce(rom: Byte, ram: Byte, rest: seq<Byte>, c: Chain, overlap: bool)
    ensures LoadBin(RenderBlock(Binary, Announce(rom, ram)) + rest, c, overlap) ==
            LoadBin(rest, c.Named().NewMap(Banks(Some(rom), Some(ram))), overlap)
  {
    var file := RenderBlock(Binary, Announce(rom, ram)) + rest;
    assert file == [255, 255, 3, 0] + ([0, rom, ram] + rest);
    var tail := file[4..];
    assert tail == [0, rom, ram] + rest;
    assert tail[3..] == rest;
  }

  lemma {:induction false} BinEnd(rest: seq<Byte>, c: Chain, overlap: bool)
    ensures LoadBin(Ending(Binary) + rest, c, overlap) == Loaded(c.Named(), rest)
  {
    assert (Ending(Binary) + rest)[4..] == rest;
  }

  lemma {:induction false} BinLoads(bs: seq<Block>, rest: seq<Byte>, c: Chain, overlap: bool)
    requires AllPlain(bs)
    ensures LoadBin(RenderBlocks(Binary, bs) + (Ending(Binary) + rest), c, overlap) ==
            Read(RunBlocks(Binary, bs, c, overlap), rest)
    decreases |bs|
  {
    hide LoadBin, RenderBlock, Ending, Fill;
    var tail := Ending(Binary) + rest;
    if bs == [] {
      assert [] + tail == tail;
      BinEnd(rest, c, overlap);
    } else {
      var more := RenderBlocks(Binary, bs[1..]) + tail;
      assert RenderBlocks(Binary, bs) + tail == RenderBlock(Binary, bs[0]) + more;
      match bs[0] {
        case Data(a, bytes) => BinData(a, bytes, more, c, overlap);
        case Announce(rom, ram) => BinAnnounce(rom, ram, more, c, overlap);
      }
      var s := Step(Binary, bs[0], c.Named(), overlap);
      if s.Done? {
        BinLoads(bs[1..], rest, s.chain, overlap);
      }
    }
  }

  // ----- hexadecimal -----

  predicate IsNamed(c: Chain) { c.cur.banks == c.banks }

  /** Going on after a digit. */
  function Resume(s: Stepped, rest: seq<Byte>, c: Chain, overlap: bool): Outcome {
    match s
    case Go(h, c') => LoadHex(rest, h, c', overlap)
    case Finished => Loaded(c, rest)
    case Stopped(e) => Failed(e)
  }

  lemma {:induction false} HexNamed(file: seq<Byte>, h: Hex, c: Chain, overlap: bool)
    ensures LoadHex(file, h, c, overlap) == LoadHex(file, h, c.Named(), overlap)
  {
    assert c.Named().Named() == c.Named();
  }

  lemma {:induction false} HexSkip(b: Byte, rest: seq<Byte>, h: Hex, c: Chain, overlap: bool)
    requires Value(b).None? && IsNamed(c)
    ensures LoadHex([b] + rest, h, c, overlap) == LoadHex(rest, h, c, overlap)
  {
    assert ([b] + rest)[1..] == rest;
    assert c.Named() == c;
  }

  lemma {:induction false} HexDigit(n: nat, rest: seq<Byte>, h: Hex, c: Chain, overlap: bool)
    requires n < 16 && IsNamed(c)
    ensures LoadHex([Digit(n)] + rest, h, c, overlap) ==
            Resume(Digest(h, n, c, overlap), rest, c, overlap)
  {
    assert ([Digit(n)] + rest)[1..] == rest;
    assert c.Named() == c;
  }

  /** Two digits, read one after the other. */
  lemma {:induction false} HexPair(b: Byte, rest: seq<Byte>, h: Hex, c: Chain, overlap: bool)
    requires h.i == 0 && IsNamed(c) && !h.phase.GetAddress? && !h.phase.GetLength?
    requires h.phase.MetaType? ==> h.length == 3
    ensures LoadHex(Hex2(b) + rest, h, c, overlap) ==
            Resume(Digest(h.(i := 1, abyte := b / 16), b % 16, c, overlap), rest, c, overlap)
  {
    var h1 := h.(i := 1, abyte := b / 16);
    var tail := [Digit(b % 16)] + rest;
    assert Hex2(b) + rest == [Digit(b / 16)] + tail;
    HexDigit(b / 16, tail, h, c, overlap);
    assert Digest(h, b / 16, c, overlap) == Go(h1, c);
    HexDigit(b % 16, rest, h1, c, overlap);
  }

  function AddressRead(h: Hex, w: nat): Hex { h.(phase := GetLength, i := 0, address := w) }

  lemma Hex4Split(w: nat, rest: seq<Byte>)
    ensures Hex4(w) + rest ==
            [Digit(w / 4096 % 16)] + ([Digit(w / 256 % 16)] + ([Digit(w / 16 % 16)] + ([Digit(w % 16)] + rest)))
  {
  }

  lemma Nibbles(w: nat)
    requires w < 65536
    ensures ((w / 4096 % 16 * 16 + w / 256 % 16) * 16 + w / 16 % 16) * 16 + w % 16 == w
  {
    assert w / 4096 % 16 == w / 4096;
  }

  lemma {:induction false} HexAddress(w: nat, rest: seq<Byte>, h: Hex, c: Chain, overlap: bool)
    requires w < 65536 && h.phase.GetAddress? && h.i == 0 && IsNamed(c)
    ensures LoadHex(Hex4(w) + rest, h, c, overlap) == LoadHex(rest, AddressRead(h, w), c, overlap)
  {
    hide LoadHex, Hex4;
    var d0, d1, d2, d3 := w / 4096 % 16, w / 256 % 16, w / 16 % 16, w % 16;
    var t3 := [Digit(d3)] + rest;
    var t2 := [Digit(d2)] + t3;
    var t1 := [Digit(d1)] + t2;
    Hex4Split(w, rest);
    var h1 := h.(i := 1, address := d0);
    var h2 := h.(i := 2, address := d0 * 16 + d1);
    var h3 := h.(i := 3, address := (d0 * 16 + d1) * 16 + d2);
    HexDigit(d0, t1, h, c, overlap);
    HexDigit(d1, t2, h1, c, overlap);
    HexDigit(d2, t3, h2, c, overlap);
    HexDigit(d3, rest, h3, c, overlap);
    Nibbles(w);
  }

  function LengthRead(h: Hex, n: nat): Hex {
    h.(phase := if h.address == 65535 && n > 1 then MetaType else GetBlock, i := 0, length := n)
  }

  lemma {:induction false} HexLength(n: nat, rest: seq<Byte>, h: Hex, c: Chain, overlap: bool)
    requires n < 65536 && h.phase.GetLength? && h.i == 0 && IsNamed(c)
    ensures LoadHex(Hex4(n) + rest, h, c, overlap) ==
            if n == 0 then Loaded(c, rest) else LoadHex(rest, LengthRead(h, n), c, overlap)
  {
    hide LoadHex, Hex4;
    var d0, d1, d2, d3 := n / 4096 % 16, n / 256 % 16, n / 16 % 16, n % 16;
    var t3 := [Digit(d3)] + rest;
    var t2 := [Digit(d2)] + t3;
    var t1 := [Digit(d1)] + t2;
    Hex4Split(n, rest);
    var h1 := h.(i := 1, length := d0);
    var h2 := h.(i := 2, length := d0 * 16 + d1);
    var h3 := h.(i := 3, length := (d0 * 16 + d1) * 16 + d2);
    HexDigit(d0, t1, h, c, overlap);
    HexDigit(d1, t2, h1, c, overlap);
    HexDigit(d2, t3, h2, c, overlap);
    HexDigit(d3, rest, h3, c, overlap);
    Nibbles(n);
  }

  /** Address, comma, length. */
  lemma {:induction false} HexHeader(a: nat, n: nat, rest: seq<Byte>, h: Hex, c: Chain, overlap: bool)
    requires a < 65536 && n < 65536 && h.phase.GetAddress? && h.i == 0 && IsNamed(c)
    ensures LoadHex(Hex4(a) + ([COMMA] + (Hex4(n) + rest)), h, c, overlap) ==
            if n == 0 then Loaded(c, rest) else LoadHex(rest, LengthRead(AddressRead(h, a), n), c, overlap)
  {
    hide LoadHex, Hex4;
    HexAddress(a, [COMMA] + (Hex4(n) + rest), h, c, overlap);
    HexSkip(COMMA, Hex4(n) + rest, AddressRead(h, a), c, overlap);
    HexLength(n, rest, AddressRead(h, a), c, overlap);
  }

  function After(h: Hex, bs: seq<Byte>): Hex
    requires bs != []
  {
    Hex(GetAddress, 0, h.address + |bs|, 0, bs[|bs| - 1])
  }

  lemma {:induction false} HexByte(b: Byte, rest: seq<Byte>, h: Hex, c: Chain, overlap: bool)
    requires h.phase.GetBlock? && h.i == 0 && h.length > 0 && IsNamed(c)
    ensures LoadHex(Hex2(b) + rest, h, c, overlap) ==
            var r := PutByte(c.cur.cells, h.address, b, overlap);
            if r.Clash? then Failed(r.error)
            else
              LoadHex(rest, Hex(if h.length == 1 then GetAddress else GetBlock, 0, h.address + 1, h.length - 1, b),
                      c.WithCells(r.cells), overlap)
  {
    hide LoadHex, Hex2, PutByte;
    HexPair(b, rest, h, c, overlap);
    assert b / 16 * 16 + b % 16 == b;
  }

  lemma {:induction false} HexBlock(bs: seq<Byte>, k: nat, rest: seq<Byte>, h: Hex, c: Chain, overlap: bool)
    requires h.phase.GetBlock? && h.i == 0 && h.length == |bs| > 0 && IsNamed(c)
    ensures LoadHex(HexBytes(bs, k) + rest, h, c, overlap) ==
            var r := Fill(c.cur.cells, h.address, bs, overlap);
            if r.Clash? then Failed(r.error) else LoadHex(rest, After(h, bs), c.WithCells(r.cells), overlap)
    decreases |bs|
  {
    hide LoadHex, Hex2, PutByte;
    var nl := if (k + 1) % 40 == 0 then [NL] else [];
    var more := HexBytes(bs[1..], k + 1) + rest;
    assert HexBytes(bs, k) + rest == Hex2(bs[0]) + (nl + more);
    HexByte(bs[0], nl + more, h, c, overlap);
    var p := PutByte(c.cur.cells, h.address, bs[0], overlap);
    if p.Full? {
      var c' := c.WithCells(p.cells);
      var h' := Hex(if h.length == 1 then GetAddress else GetBlock, 0, h.address + 1, h.length - 1, bs[0]);
      if nl == [] {
        assert nl + more == more;
      } else {
        HexSkip(NL, more, h', c', overlap);
      }
      if |bs| > 1 {
        HexBlock(bs[1..], k + 1, rest, h', c', overlap);
        assert After(h', bs[1..]) == After(h, bs);
      } else {
        assert bs[1..] == [];
        if (k + 1) % 40 == 0 {
          assert more == rest;
        } else {
          HexSkip(NL, rest, h', c', overlap);
        }
      }
    }
  }

  predicate Waiting(h: Hex) { h.phase.GetAddress? && h.i == 0 }

  lemma HexData(a: nat, bs: seq<Byte>, rest: seq<Byte>, h: Hex, c: Chain, overlap: bool) returns (h': Hex)
    requires Plain(Data(a, bs)) && Waiting(h) && IsNamed(c)
    ensures Waiting(h')
    ensures LoadHex(RenderBlock(Hexa, Data(a, bs)) + rest, h, c, overlap) ==
            var r := Fill(c.cur.cells, a, bs, overlap);
            if r.Clash? then Failed(r.error) else LoadHex(rest, h', c.WithCells(r.cells), overlap)
  {
    hide LoadHex, Hex4, HexBytes, Fill;
    var body := HexBytes(bs, 0) + rest;
    assert RenderBlock(Hexa, Data(a, bs)) + rest == Hex4(a) + ([COMMA] + (Hex4(|bs|) + ([NL] + body)));
    HexHeader(a, |bs|, [NL] + body, h, c, overlap);
    var h1 := LengthRead(AddressRead(h, a), |bs|);
    HexSkip(NL, body, h1, c, overlap);
    HexBlock(bs, 0, rest, h1, c, overlap);
    h' := After(h1, bs);
  }

  /** The second of the three announced bytes already renames the map before. */
  lemma HexBanks(rom: Byte, ram: Byte, rest: seq<Byte>, h: Hex, c: Chain, overlap: bool) returns (h': Hex)
    requires h.phase.MetaType? && h.i == 0 && h.length == 3 && IsNamed(c)
    ensures Waiting(h')
    ensures LoadHex(Hex2(0) + (Hex2(rom) + (Hex2(ram) + rest)), h, c, overlap) ==
            LoadHex(rest, h', Step(Hexa, Announce(rom, ram), c, overlap).chain, overlap)
  {
    hide LoadHex, Hex2;
    HexPair(0, Hex2(rom) + (Hex2(ram) + rest), h, c, overlap);
    var h1 := h.(phase := MetaRom, i := 0, abyte := 0);
    HexPair(rom, Hex2(ram) + rest, h1, c, overlap);
    var h2 := h1.(phase := MetaRam, abyte := rom);
    assert rom / 16 * 16 + rom % 16 == rom && ram / 16 * 16 + ram % 16 == ram;
    var c2 := c.(banks := c.banks.(rom := Some(rom)));
    HexNamed(Hex2(ram) + rest, h2, c2, overlap);
    HexPair(ram, rest, h2, c2.Named(), overlap);
    h' := h2.(phase := GetAddress, abyte := ram);
  }

  lemma HexAnnounce(rom: Byte, ram: Byte, rest: seq<Byte>, h: Hex, c: Chain, overlap: bool) returns (h': Hex)
    requires Waiting(h) && IsNamed(c)
    ensures Waiting(h')
    ensures LoadHex(RenderBlock(Hexa, Announce(rom, ram)) + rest, h, c, overlap) ==
            LoadHex(rest, h', Step(Hexa, Announce(rom, ram), c, overlap).chain, overlap)
  {
    hide LoadHex, Hex4, Hex2;
    var body := [NL] + rest;
    var banks := Hex2(0) + (Hex2(rom) + (Hex2(ram) + body));
    assert RenderBlock(Hexa, Announce(rom, ram)) + rest == Hex4(0xFFFF) + ([COMMA] + (Hex4(3) + ([NL] + banks)));
    HexHeader(0xFFFF, 3, [NL] + banks, h, c, overlap);
    var h1 := LengthRead(AddressRead(h, 0xFFFF), 3);
    HexSkip(NL, banks, h1, c, overlap);
    h' := HexBanks(rom, ram, body, h1, c, overlap);
    var c' := Step(Hexa, Announce(rom, ram), c, overlap).chain;
    HexNamed(body, h', c', overlap);
    HexSkip(NL, rest, h', c'.Named(), overlap);
    HexNamed(rest, h', c', overlap);
  }

  lemma {:induction false} HexLoads(bs: seq<Block>, rest: seq<Byte>, h: Hex, c: Chain, overlap: bool)
    requires AllPlain(bs) && Waiting(h)
    ensures LoadHex(RenderBlocks(Hexa, bs) + (Ending(Hexa) + rest), h, c, overlap) ==
            Read(RunBlocks(Hexa, bs, c, overlap), [NL] + rest)
    decreases |bs|
  {
    hide LoadHex, RenderBlock, Hex4, Fill;
    var tail := Ending(Hexa) + rest;
    HexNamed(RenderBlocks(Hexa, bs) + tail, h, c, overlap);
    var n := c.Named();
    if bs == [] {
      assert [] + tail == tail == Hex4(0) + ([COMMA] + (Hex4(0) + ([NL] + rest)));
      HexHeader(0, 0, [NL] + rest, h, n, overlap);
    } else {
      var more := RenderBlocks(Hexa, bs[1..]) + tail;
      assert RenderBlocks(Hexa, bs) + tail == RenderBlock(Hexa, bs[0]) + more;
      var h' := h;
      match bs[0] {
        case Data(a, bytes) => h' := HexData(a, bytes, more, h, n, overlap);
        case Announce(rom, ram) => h' := HexAnnounce(rom, ram, more, h, n, overlap);
      }
      var s := Step(Hexa, bs[0], n, overlap);
      if s.Done? {
        HexLoads(bs[1..], rest, h', s.chain, overlap);
      }
    }
  }

  // ----- sections -----

  lemma {:induction false} ScanSignature(f: Format, rest: seq<Byte>)
    ensures Scan(Signature(f) + rest, 0, true, true) == Found(rest, f.Binary?, f.Hexa?)
  {
    ScanFrom(f, rest, 0);
    assert Signature(f)[0..] == Signature(f);
  }

  lemma {:induction false} ScanFrom(f: Format, rest: seq<Byte>, i: nat)
    requires i <= 8
    ensures Scan(Signature(f)[i..] + rest, i, i <= 3 || f.Binary?, i <= 3 || f.Hexa?)
            == Found(rest, f.Binary?, f.Hexa?)
    decreases 8 - i
  {
    var file := Signature(f)[i..] + rest;
    if i == 8 {
      assert file == rest;
    } else {
      assert file[1..] == Signature(f)[i + 1..] + rest;
      ScanFrom(f, rest, i + 1);
    }
  }

  /** The line break a hexadecimal section ends with belongs to no signature. */
  lemma {:induction false} ScanNewline(rest: seq<Byte>)
    ensures Scan([NL] + rest, 0, true, true) == Scan(rest, 0, true, true)
  {
    assert ([NL] + rest)[1..] == rest;
  }

  lemma {:induction false} FileNewline(rest: seq<Byte>, c: Chain, overlap: bool)
    ensures LoadFile([NL] + rest, c, overlap, true) == LoadFile(rest, c, overlap, true)
  {
    ScanNewline(rest);
  }

  lemma {:induction false} SectionLoads(s: Section, rest: seq<Byte>, c: Chain, overlap: bool, found: bool)
    requires AllPlain(s.blocks)
    ensures LoadFile(RenderSection(s) + rest, c, overlap, found) ==
            var r := RunBlocks(s.format, s.blocks, c, overlap);
            if r.Broke? then Failed(r.error) else LoadFile(rest, r.chain, overlap, true)
  {
    hide LoadBin, LoadHex, RunBlocks, Scan, RenderBlocks, Signature, Ending;
    var body := RenderBlocks(s.format, s.blocks) + (Ending(s.format) + rest);
    var file := RenderSection(s) + rest;
    if s.format.Binary? {
      assert file == Signature(Binary) + body;
      ScanSignature(Binary, body);
      BinLoads(s.blocks, rest, c, overlap);
    } else {
      assert file == Signature(Hexa) + ([NL] + body);
      ScanSignature(Hexa, [NL] + body);
      HexNamed([NL] + body, Hex0, c, overlap);
      HexSkip(NL, body, Hex0, c.Named(), overlap);
      HexNamed(body, Hex0, c, overlap);
      HexLoads(s.blocks, rest, Hex0, c, overlap);
      if RunBlocks(s.format, s.blocks, c, overlap).Done? {
        FileNewline(rest, RunBlocks(s.format, s.blocks, c, overlap).chain, overlap);
      }
    }
  }

  lemma {:induction false} SectionsLoad(ss: seq<Section>, rest: seq<Byte>, c: Chain, overlap: bool, found: bool)
    requires PlainSections(ss)
    ensures LoadFile(Render(ss) + rest, c, overlap, found) ==
            var r := RunSections(ss, c, overlap);
            if r.Broke? then Failed(r.error) else LoadFile(rest, r.chain, overlap, found || ss != [])
    decreases |ss|
  {
    hide LoadFile, RenderSection, RunBlocks;
    if ss == [] {
      assert Render(ss) + rest == rest;
    } else {
      var more := Render(ss[1..]) + rest;
      assert Render(ss) + rest == RenderSection(ss[0]) + more;
      SectionLoads(ss[0], more, c, overlap, found);
      var r := RunBlocks(ss[0].format, ss[0].blocks, c, overlap);
      if r.Done? {
        SectionsLoad(ss[1..], rest, r.chain, overlap, true);
      }
    }
  }

  /** A file of at least one section loads exactly as its blocks say, into whatever the head map holds. */
  lemma {:induction false} LoadIsRun(ss: seq<Section>, head: Node, overlap: bool)
    requires PlainSections(ss) && ss != []
    ensures Load(Render(ss), head, overlap) ==
            Read(RunSections(ss, Start(head), overlap), [])
  {
    assert Render(ss) + [] == Render(ss);
    SectionsLoad(ss, [], Start(head), overlap, false);
  }
}
