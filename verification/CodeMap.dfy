/** The BS3 code-map file: what is written for a map, and the loader, as functions on byte sequences. */
module CodeMap {
  import opened Options

  type Byte = b: int | 0 <= b < 256

  datatype Format = Binary | Hexa

  /** The in-use cells of a code map. */
  type Cells = m: map<int, Byte> | forall a :: a in m ==> 0 <= a < 65536 witness map[]

  /** None: the loader's variable was never set. */
  datatype Banks = Banks(rom: Option<Byte>, ram: Option<Byte>)

  datatype Node = Node(cells: Cells, banks: Banks)

  /** A map just allocated. */
  const Blank: Node := Node(map[], Banks(Some(0), Some(0)))

  // ----- writing -----

  datatype Block = Data(addr: nat, bytes: seq<Byte>) | Announce(rom: Byte, ram: Byte)

  const NL: Byte := 10
  const COMMA: Byte := 44

  /** BS3BIN01 and BS3HEX01. */
  function Signature(f: Format): (s: seq<Byte>)
    ensures |s| == 8
  {
    if f.Binary? then [66, 83, 51, 66, 73, 78, 48, 49] else [66, 83, 51, 72, 69, 88, 48, 49]
  }

  function Digit(n: nat): Byte
    requires n < 16
  {
    if n < 10 then 48 + n else 55 + n
  }

  function Hex2(b: Byte): (s: seq<Byte>)
    ensures |s| == 2
  {
    [Digit(b / 16), Digit(b % 16)]
  }

  /** The low sixteen bits in four digits. */
  function Hex4(w: nat): (s: seq<Byte>)
    ensures |s| == 4
  {
    [Digit(w / 4096 % 16), Digit(w / 256 % 16), Digit(w / 16 % 16), Digit(w % 16)]
  }

  /** The low sixteen bits, low byte first. */
  function Word2(w: nat): (s: seq<Byte>)
    ensures |s| == 2
  {
    [w % 256, w / 256 % 256]
  }

  /** Bytes in hexadecimal, a line break after each fortieth and after the last; k bytes are written already. */
  function HexBytes(bs: seq<Byte>, k: nat): seq<Byte> {
    if bs == [] then (if k % 40 != 0 then [NL] else [])
    else Hex2(bs[0]) + ((if (k + 1) % 40 == 0 then [NL] else []) + HexBytes(bs[1..], k + 1))
  }

  function RenderBlock(f: Format, b: Block): seq<Byte> {
    match (f, b)
    case (Binary, Data(a, bs)) => Word2(a) + (Word2(|bs|) + bs)
    case (Binary, Announce(rom, ram)) => Word2(0xFFFF) + (Word2(3) + [0, rom, ram])
    case (Hexa, Data(a, bs)) => Hex4(a) + ([COMMA] + (Hex4(|bs|) + ([NL] + HexBytes(bs, 0))))
    case (Hexa, Announce(rom, ram)) =>
      Hex4(0xFFFF) + ([COMMA] + (Hex4(3) + ([NL] + (Hex2(0) + (Hex2(rom) + (Hex2(ram) + [NL]))))))
  }

  function RenderBlocks(f: Format, bs: seq<Block>): seq<Byte> {
    if bs == [] then [] else RenderBlock(f, bs[0]) + RenderBlocks(f, bs[1..])
  }

  function Ending(f: Format): seq<Byte> {
    if f.Binary? then Word2(0) + Word2(0) else Hex4(0) + ([COMMA] + (Hex4(0) + [NL]))
  }

  datatype Section = Section(format: Format, blocks: seq<Block>)

  function RenderSection(s: Section): seq<Byte> {
    Signature(s.format) + ((if s.format.Hexa? then [NL] else []) + (RenderBlocks(s.format, s.blocks) + Ending(s.format)))
  }

  function Render(ss: seq<Section>): seq<Byte> {
    if ss == [] then [] else RenderSection(ss[0]) + Render(ss[1..])
  }

  /** First cell from a on that is in use, or not in use; 65536 if there is none. */
  function FirstUsed(m: Cells, a: nat): (s: nat)
    requires a <= 65536
    ensures a <= s <= 65536 && (s < 65536 ==> s in m) && forall x :: a <= x < s ==> x !in m
    decreases 65536 - a
  {
    if a == 65536 || a in m then a else FirstUsed(m, a + 1)
  }

  function FirstFree(m: Cells, a: nat): (e: nat)
    requires a <= 65536
    ensures a <= e <= 65536 && (e < 65536 ==> e !in m) && forall x :: a <= x < e ==> x in m
    decreases 65536 - a
  {
    if a == 65536 || a !in m then a else FirstFree(m, a + 1)
  }

  function Span(m: Cells, s: nat, e: nat): (bs: seq<Byte>)
    requires s <= e && forall x :: s <= x < e ==> x in m
    ensures |bs| == e - s
  {
    seq(e - s, i requires 0 <= i < e - s => m[s + i])
  }

  /** The runs of cells in use, from a on. */
  function Blocks(m: Cells, a: nat): seq<Block>
    requires a <= 65536
    decreases 65536 - a
  {
    var s := FirstUsed(m, a);
    if s == 65536 then [] else
    var e := FirstFree(m, s);
    [Data(s, Span(m, s, e))] + Blocks(m, e)
  }

  function Save(m: Cells, f: Format): seq<Byte> { RenderSection(Section(f, Blocks(m, 0))) }

  /** A file with another appended to it under announced banks. */
  function Embed(file: seq<Byte>, embedded: seq<Byte>, rom: Byte, ram: Byte, f: Format): seq<Byte> {
    file + RenderSection(Section(f, [Announce(rom, ram)])) + embedded
  }

  // ----- loading -----

  datatype Error = BadFile | UnexpectedEof | Overlap | BadMeta | OutOfMemory

  /** The maps finished, the one being filled and the banks announced last. */
  datatype Chain = Chain(done: seq<Node>, cur: Node, banks: Banks) {
    /** Done before every block: the current map takes the banks announced last. */
    function Named(): Chain { this.(cur := cur.(banks := banks)) }

    function NewMap(k: Banks): Chain { Chain(done + [cur], Blank, k) }

    function WithCells(m: Cells): Chain { this.(cur := cur.(cells := m)) }

    function Maps(): seq<Node> { done + [cur] }
  }

  /** rest is what has not been read. */
  datatype Outcome = Loaded(chain: Chain, rest: seq<Byte>) | Failed(error: Error)

  datatype Filled = Full(cells: Cells) | Clash(error: Error)

  /** One byte; an address past the end of memory has no cell. */
  function PutByte(m: Cells, a: nat, b: Byte, overlap: bool): Filled {
    if a >= 65536 then Clash(OutOfMemory)
    else if a in m && !overlap then Clash(Overlap)
    else Full(m[a := b])
  }

  datatype Scanned = NotFound | Found(rest: seq<Byte>, bin: bool, hex: bool)

  /** Look for a signature. A byte that fits neither at its place starts the search over with the next. */
  function Scan(file: seq<Byte>, i: nat, bin: bool, hex: bool): (r: Scanned)
    requires i <= 8
    ensures r.Found? ==> |r.rest| <= |file| - (8 - i)
    decreases |file|
  {
    if i == 8 then Found(file, bin, hex)
    else if file == [] then NotFound
    else
      var c := file[0];
      if c != Signature(Binary)[i] && c != Signature(Hexa)[i] then Scan(file[1..], 0, true, true)
      else Scan(file[1..], i + 1, bin && c == Signature(Binary)[i], hex && c == Signature(Hexa)[i])
  }

  /** n bytes of a binary block. */
  function PutBytes(file: seq<Byte>, c: Chain, a: nat, n: nat, overlap: bool): (r: Outcome)
    ensures r.Loaded? ==> n <= |file| && r.rest == file[n..]
    decreases n
  {
    if n == 0 then Loaded(c, file)
    else if file == [] then Failed(UnexpectedEof)
    else
      match PutByte(c.cur.cells, a, file[0], overlap)
      case Clash(e) => Failed(e)
      case Full(m) => PutBytes(file[1..], c.WithCells(m), a + 1, n - 1, overlap)
  }

  function Word(low: Byte, high: Byte): nat { low + high * 256 }

  /** What is wrong with an announcement of n bytes. */
  function BadAnnounce(n: nat, rest: seq<Byte>): (e: Option<Error>)
    ensures e.None? ==> |rest| >= 3
  {
    if n != 3 then Some(BadMeta)
    else if rest == [] then Some(UnexpectedEof)
    else if rest[0] != 0 then Some(BadMeta)
    else if |rest| < 3 then Some(UnexpectedEof)
    else None
  }

  /** Blocks to the one of length 0, or to the end of the file. */
  function LoadBin(file: seq<Byte>, chain: Chain, overlap: bool): (r: Outcome)
    ensures r.Loaded? ==> |r.rest| <= |file|
    decreases |file|
  {
    var c := chain.Named();
    if file == [] then Loaded(c, [])
    else if |file| < 4 then Failed(UnexpectedEof)
    else
      var a, n, rest := Word(file[0], file[1]), Word(file[2], file[3]), file[4..];
      if n == 0 then Loaded(c, rest)
      else if a == 65535 && n > 1 then
        var e := BadAnnounce(n, rest);
        if e.Some? then Failed(e.value)
        else LoadBin(rest[3..], c.NewMap(Banks(Some(rest[1]), Some(rest[2]))), overlap)
      else
        var r := PutBytes(rest, c, a, n, overlap);
        if r.Failed? then r else LoadBin(r.rest, r.chain, overlap)
  }

  // ----- hexadecimal -----

  datatype Phase = GetAddress | GetLength | GetBlock | MetaType | MetaRom | MetaRam

  /** i digits of the current number are read. */
  datatype Hex = Hex(phase: Phase, i: nat, address: nat, length: nat, abyte: nat)

  const Hex0: Hex := Hex(GetAddress, 0, 0, 0, 0)

  function Value(c: Byte): (d: Option<nat>)
    ensures d.Some? ==> d.value < 16
  {
    if 48 <= c <= 57 then Some(c - 48)
    else if 97 <= c <= 102 then Some(c - 87)
    else if 65 <= c <= 70 then Some(c - 55)
    else None
  }

  datatype Stepped = Go(h: Hex, chain: Chain) | Finished | Stopped(error: Error)

  /** The number after a further digit; the first digit starts it anew. */
  function Shift(n: nat, i: nat, d: nat): nat { (if i == 0 then 0 else n) * 16 + d }

  /** The effect of a digit. */
  function Digest(h: Hex, d: nat, c: Chain, overlap: bool): Stepped {
    match h.phase
    case GetAddress =>
      var a := Shift(h.address, h.i, d);
      Go(if h.i == 3 then h.(phase := GetLength, i := 0, address := a) else h.(i := h.i + 1, address := a), c)
    case GetLength =>
      var n := Shift(h.length, h.i, d);
      if h.i != 3 then Go(h.(i := h.i + 1, length := n), c)
      else if n == 0 then Finished
      else Go(h.(phase := if h.address == 65535 && n > 1 then MetaType else GetBlock, i := 0, length := n), c)
    case MetaType =>
      if h.length != 3 then Stopped(BadMeta) else
      var b := Shift(h.abyte, h.i, d);
      if h.i != 1 then Go(h.(i := h.i + 1, abyte := b), c)
      else if b == 0 then Go(h.(phase := MetaRom, i := 0, abyte := b), c)
      else Stopped(BadMeta)
    case MetaRom =>
      var b := Shift(h.abyte, h.i, d);
      if h.i != 1 then Go(h.(i := h.i + 1, abyte := b), c)
      else Go(h.(phase := MetaRam, i := 0, abyte := b), c.(banks := c.banks.(rom := Some(b % 256))))
    case MetaRam =>
      var b := Shift(h.abyte, h.i, d);
      if h.i != 1 then Go(h.(i := h.i + 1, abyte := b), c)
      else Go(h.(phase := GetAddress, i := 0, abyte := b), c.NewMap(c.banks.(ram := Some(b % 256))))
    case GetBlock =>
      var b := Shift(h.abyte, h.i, d);
      if h.i != 1 then Go(h.(i := h.i + 1, abyte := b), c)
      else
        match PutByte(c.cur.cells, h.address, b % 256, overlap)
        case Clash(e) => Stopped(e)
        case Full(m) =>
          Go(Hex(if h.length == 1 then GetAddress else GetBlock, 0, h.address + 1,
                 if h.length > 0 then h.length - 1 else 0, b), c.WithCells(m))
  }

  /** Everything but digits is skipped. */
  function LoadHex(file: seq<Byte>, h: Hex, chain: Chain, overlap: bool): (r: Outcome)
    ensures r.Loaded? ==> |r.rest| < |file|
    decreases |file|
  {
    var c := chain.Named();
    if file == [] then Failed(UnexpectedEof) else
    var d := Value(file[0]);
    if d.None? then LoadHex(file[1..], h, c, overlap) else
    match Digest(h, d.value, c, overlap)
    case Go(h', c') => LoadHex(file[1..], h', c', overlap)
    case Finished => Loaded(c, file[1..])
    case Stopped(e) => Failed(e)
  }

  /** Sections until the end of the file; anything between them is skipped. */
  function LoadFile(file: seq<Byte>, chain: Chain, overlap: bool, found: bool): (r: Outcome)
    decreases |file|
  {
    match Scan(file, 0, true, true)
    case NotFound => if found then Loaded(chain, []) else Failed(BadFile)
    case Found(rest, bin, hex) =>
      var r := if bin then LoadBin(rest, chain, overlap)
               else if hex then LoadHex(rest, Hex0, chain, overlap)
               else Loaded(chain, rest);
      if r.Failed? then r else LoadFile(r.rest, r.chain, overlap, true)
  }

  /** Loading starts with no bank known. */
  function Start(head: Node): Chain { Chain([], head, Banks(None, None)) }

  function Load(file: seq<Byte>, head: Node, overlap: bool): Outcome { LoadFile(file, Start(head), overlap, false) }
}
