/** Rectangles of the graphics device: pixels streamed one by one against a rectangle painted at once. */
module Gfx {
  import opened Words

  type Byte = b: int | 0 <= b < 256

  type Address = a: int | 0 <= a < 65536

  type Side = n: int | 1 <= n <= 256 witness 1

  /** A surface is 256 rows of 256 pixels. */
  predicate IsSurface(s: seq<Byte>) { |s| == 65536 }

  datatype Rect = Rect(start: Address, w: Side, h: Side)

  /** The side a size byte means: 0 stands for 256. */
  function SideOf(b: Byte): Side { if b == 0 then 256 else b }

  function Wrap(a: int): Address { a % 65536 }

  /** Pixel (x, y) of a rectangle; rows wrap into the next, and the surface into its start. */
  function Pixel(start: Address, x: nat, y: nat): Address { Wrap(start + 256 * y + x) }

  // ----- where an address lies in a rectangle -----

  function Column(start: Address, a: Address): nat { Wrap(a - start) % 256 }

  function Row(start: Address, a: Address): nat { Wrap(a - start) / 256 }

  predicate Inside(r: Rect, a: Address) { Column(r.start, a) < r.w && Row(r.start, a) < r.h }

  /** The number of a pixel, row by row. */
  function Index(w: Side, x: nat, y: nat): nat { y * w + x }

  function IndexOf(r: Rect, a: Address): nat { Index(r.w, Column(r.start, a), Row(r.start, a)) }

  /** The first k pixels of the rectangle hold v; the rest of the surface is s. */
  function Painted(s: seq<Byte>, r: Rect, k: nat, v: seq<Byte>): (t: seq<Byte>)
    requires IsSurface(s) && k <= |v|
    ensures IsSurface(t)
  {
    seq(65536, a requires 0 <= a < 65536 => if Inside(r, a) && IndexOf(r, a) < k then v[IndexOf(r, a)] else s[a])
  }

  lemma PixelAt(start: Address, x: nat, y: nat)
    requires x < 256 && y < 256
    ensures Column(start, Pixel(start, x, y)) == x && Row(start, Pixel(start, x, y)) == y
  {
    var d := 256 * y + x;
    assert d < 65536;
    var p := Pixel(start, x, y);
    assert p == start + d || p == start + d - 65536;
    assert Wrap(p - start) == d;
  }

  lemma AtPixel(start: Address, a: Address)
    ensures Column(start, a) < 256 && Row(start, a) < 256
    ensures Pixel(start, Column(start, a), Row(start, a)) == a
  {
    var d := Wrap(a - start);
    assert d == a - start || d == a - start + 65536;
    assert 256 * (d / 256) + d % 256 == d;
  }

  lemma Multiples(w: nat, p: nat, q: nat)
    requires p < q
    ensures p * w + w <= q * w
  {
    var d := q - p - 1;
    assert d * w >= 0;
    assert q * w == p * w + w + d * w;
  }

  lemma IndexUnique(w: Side, x: nat, y: nat, x': nat, y': nat)
    requires x < w && x' < w && Index(w, x, y) == Index(w, x', y')
    ensures x == x' && y == y'
  {
    if y < y' { Multiples(w, y, y'); }
    if y' < y { Multiples(w, y', y); }
  }

  lemma IndexBound(r: Rect, x: nat, y: nat)
    requires x < r.w && y < r.h
    ensures Index(r.w, x, y) < r.h * r.w
  {
    Multiples(r.w, y, r.h);
  }

  /** Writing the next pixel of the rectangle. */
  lemma PaintNext(s: seq<Byte>, r: Rect, x: nat, y: nat, v: seq<Byte>)
    requires IsSurface(s) && x < r.w && y < r.h && Index(r.w, x, y) < |v|
    ensures var k := Index(r.w, x, y);
            Painted(s, r, k + 1, v) == Painted(s, r, k, v)[Pixel(r.start, x, y) := v[k]]
  {
    hide Column, Row, Pixel, Index;
    var k := Index(r.w, x, y);
    var p := Pixel(r.start, x, y);
    var t, u := Painted(s, r, k + 1, v), Painted(s, r, k, v)[p := v[k]];
    PixelAt(r.start, x, y);
    forall a | 0 <= a < 65536 ensures t[a] == u[a] {
      AtPixel(r.start, a);
      if Inside(r, a) && IndexOf(r, a) == k {
        IndexUnique(r.w, Column(r.start, a), Row(r.start, a), x, y);
      }
    }
  }

  lemma PaintNothing(s: seq<Byte>, r: Rect, v: seq<Byte>)
    requires IsSurface(s)
    ensures Painted(s, r, 0, v) == s
  {
  }

  // ----- streaming -----

  /** The progress registers of a transfer. */
  datatype Progress = Progress(addr: Address, x: nat, y: nat, waiting: bool)

  function Begun(start: Address): Progress { Progress(start, 0, 0, true) }

  /** Where the transfer is after one more pixel; at the end the other registers keep their values. */
  function Advance(p: Progress, w: Side, h: Side): Progress {
    if p.x + 1 < w then Progress(Wrap(p.addr + 1), p.x + 1, p.y, p.waiting)
    else if p.y + 1 < h then Progress(Wrap(p.addr + 1 + 256 - w), 0, p.y + 1, p.waiting)
    else p.(waiting := false)
  }

  datatype Stream = Stream(surface: seq<Byte>, p: Progress)

  /** One data write of a transfer. */
  function Data(t: Stream, w: Side, h: Side, value: Byte): (r: Stream)
    requires IsSurface(t.surface)
    ensures IsSurface(r.surface)
  {
    Stream(t.surface[t.p.addr := value], Advance(t.p, w, h))
  }

  /** Values written one after the other while the transfer waits for data. */
  function Streamed(t: Stream, w: Side, h: Side, v: seq<Byte>): (r: Stream)
    requires IsSurface(t.surface)
    ensures IsSurface(r.surface)
    decreases |v|
  {
    if v == [] || !t.p.waiting then t else Streamed(Data(t, w, h, v[0]), w, h, v[1..])
  }

  /** Progress after k pixels. */
  predicate At(p: Progress, r: Rect, k: nat) {
    p.waiting && p.x < r.w && p.y < r.h && k == Index(r.w, p.x, p.y) && p.addr == Pixel(r.start, p.x, p.y)
  }

  lemma WrapAdd(a: int, b: int)
    ensures Wrap(Wrap(a) + b) == Wrap(a + b)
  {
    assert a == 65536 * (a / 65536) + Wrap(a);
    assert Wrap(a) + b == a + b - 65536 * (a / 65536);
    WrapTurns(a + b, -(a / 65536));
  }

  lemma WrapTurns(a: int, n: int)
    ensures Wrap(a + 65536 * n) == Wrap(a)
  {
  }

  lemma StepRight(start: Address, x: nat, y: nat)
    ensures Wrap(Pixel(start, x, y) + 1) == Pixel(start, x + 1, y)
  {
    hide Wrap;
    WrapAdd(start + 256 * y + x, 1);
  }

  lemma StepDown(start: Address, w: Side, y: nat)
    ensures Wrap(Pixel(start, w - 1, y) + 1 + 256 - w) == Pixel(start, 0, y + 1)
  {
    hide Wrap;
    WrapAdd(start + 256 * y + w - 1, 1 + 256 - w);
  }

  lemma AdvanceOk(p: Progress, r: Rect, k: nat)
    requires At(p, r, k)
    ensures k + 1 < r.h * r.w ==> At(Advance(p, r.w, r.h), r, k + 1)
    ensures k + 1 <= r.h * r.w
    ensures k + 1 == r.h * r.w <==> !Advance(p, r.w, r.h).waiting
  {
    hide Pixel, Wrap;
    IndexBound(r, p.x, p.y);
    if p.x + 1 < r.w {
      IndexBound(r, p.x + 1, p.y);
      StepRight(r.start, p.x, p.y);
    } else {
      IndexNextRow(r.w, p.y);
      if p.y + 1 < r.h {
        IndexBound(r, 0, p.y + 1);
        StepDown(r.start, r.w, p.y);
      }
    }
  }

  lemma IndexNextRow(w: Side, y: nat)
    ensures Index(w, 0, y + 1) == Index(w, w - 1, y) + 1 == (y + 1) * w
  {
  }

  lemma {:induction false} StreamFrom(s: seq<Byte>, r: Rect, t: Stream, k: nat, v: seq<Byte>)
    requires IsSurface(s) && k < |v| && At(t.p, r, k) && t.surface == Painted(s, r, k, v)
    ensures var u := Streamed(t, r.w, r.h, v[k..]);
            var n := if |v| < r.h * r.w then |v| else r.h * r.w;
            && u.surface == Painted(s, r, n, v)
            && (u.p.waiting <==> |v| < r.h * r.w)
            && (u.p.waiting ==> At(u.p, r, |v|))
    decreases |v| - k
  {
    hide Painted, At, Advance, Pixel, Index;
    AtIs(t.p, r, k);
    PaintNext(s, r, t.p.x, t.p.y, v);
    AdvanceOk(t.p, r, k);
    var t' := Data(t, r.w, r.h, v[k]);
    assert v[k..][1..] == v[k + 1..];
    if k + 1 < |v| && k + 1 < r.h * r.w {
      StreamFrom(s, r, t', k + 1, v);
    }
  }

  lemma AtIs(p: Progress, r: Rect, k: nat)
    requires At(p, r, k)
    ensures p.waiting && p.x < r.w && p.y < r.h && k == Index(r.w, p.x, p.y) && p.addr == Pixel(r.start, p.x, p.y)
  {
  }

  /** Values streamed into a rectangle: they fill it row by row and touch no other pixel; the transfer ends with
    * exactly the last pixel of the rectangle, and further values are not part of it. */
  lemma {:induction false} StreamPaints(s: seq<Byte>, r: Rect, v: seq<Byte>)
    requires IsSurface(s)
    ensures var u := Streamed(Stream(s, Begun(r.start)), r.w, r.h, v);
            var n := if |v| < r.h * r.w then |v| else r.h * r.w;
            && u.surface == Painted(s, r, n, v)
            && (u.p.waiting <==> |v| < r.h * r.w)
  {
    PaintNothing(s, r, v);
    Multiples(r.w, 0, r.h);
    if v != [] {
      assert v[0..] == v;
      assert At(Begun(r.start), r, 0);
      StreamFrom(s, r, Stream(s, Begun(r.start)), 0, v);
    }
  }

  /** The same, pixel by pixel: pixel (x, y) holds byte number y * w + x, and nothing outside has changed. */
  lemma {:induction false} StreamedPixels(s: seq<Byte>, r: Rect, v: seq<Byte>)
    requires IsSurface(s) && |v| == r.h * r.w
    ensures var u := Streamed(Stream(s, Begun(r.start)), r.w, r.h, v);
            && !u.p.waiting
            && (forall x, y | 0 <= x < r.w && 0 <= y < r.h :: Index(r.w, x, y) < |v| &&
                  u.surface[Pixel(r.start, x, y)] == v[Index(r.w, x, y)])
            && (forall a: Address :: !Inside(r, a) ==> u.surface[a] == s[a])
  {
    StreamPaints(s, r, v);
    hide Streamed, Column, Row, Index, Pixel;
    forall x, y | 0 <= x < r.w && 0 <= y < r.h
      ensures Index(r.w, x, y) < |v| && Painted(s, r, |v|, v)[Pixel(r.start, x, y)] == v[Index(r.w, x, y)]
    {
      IndexBound(r, x, y);
      PixelAt(r.start, x, y);
    }
  }

  // ----- the blit -----

  datatype Video = Video(s0: seq<Byte>, s1: seq<Byte>) {
    predicate Valid() { IsSurface(s0) && IsSurface(s1) }

    function Get(one: bool): seq<Byte> { if one then s1 else s0 }

    function Put(one: bool, s: seq<Byte>): Video { if one then this.(s1 := s) else this.(s0 := s) }
  }

  function BitsOf(f: BitFn, a: Byte, b: Byte): Byte {
    assert Pow2(4) == 16 && Pow2(8) == 256;
    Bitwise(f, 8, a, b)
  }

  const COPY: nat := 0

  /** The operators of the blit command. */
  function Combine(op: nat, target: Byte, color: Byte): Byte {
    match op
    case 0 => color
    case 1 => BitsOf(OrF, target, color)
    case 2 => BitsOf(XorF, target, color)
    case 3 => BitsOf(AndF, target, color)
    case 4 => (target + color) % 256
    case 5 => (target - color) % 256
    case 6 => target * color % 256
    case _ => target
  }

  datatype Blit = Blit(op: nat, from: bool, source: Address, to: bool, target: Address, w: Side, h: Side, find: Byte, replace: Byte) {
    function Source(): Rect { Rect(source, w, h) }

    function Target(): Rect { Rect(target, w, h) }

    /** One colour of the source is replaced by another. */
    function Color(c: Byte): Byte { if c == find then replace else c }
  }

  /** One pixel of a blit. */
  function BlitPixel(v: Video, b: Blit, x: nat, y: nat): (r: Video)
    requires v.Valid()
    ensures r.Valid()
  {
    var c := b.Color(v.Get(b.from)[Pixel(b.source, x, y)]);
    var t := v.Get(b.to);
    var p := Pixel(b.target, x, y);
    v.Put(b.to, t[p := Combine(b.op, t[p], c)])
  }

  /** Pixels from (x, y) to the end, row by row. */
  function BlitFrom(v: Video, b: Blit, x: nat, y: nat): (r: Video)
    requires v.Valid() && x < b.w && y < b.h
    ensures r.Valid()
    decreases b.h - y, b.w - x
  {
    var v' := BlitPixel(v, b, x, y);
    if x + 1 < b.w then BlitFrom(v', b, x + 1, y)
    else if y + 1 < b.h then BlitFrom(v', b, 0, y + 1)
    else v'
  }

  /** Column and row of pixel number k. */
  function Across(k: nat, w: Side): nat { k % w }

  function Down(k: nat, w: Side): nat { k / w }

  /** Pixels of a rectangle. */
  function Count(w: Side, h: Side): nat { h * w }

  /** The bytes the blit puts into the target if it read all of both rectangles first. */
  function Mixed(v: Video, b: Blit): (r: seq<Byte>)
    requires v.Valid()
    ensures |r| == b.h * b.w
  {
    seq(Count(b.w, b.h), k requires 0 <= k < Count(b.w, b.h) => MixedAt(v, b, Across(k, b.w), Down(k, b.w)))
  }

  /** Pixel (x, y) of the target mixed with that of the source. */
  function MixedAt(v: Video, b: Blit, x: nat, y: nat): Byte
    requires v.Valid()
  {
    Combine(b.op, v.Get(b.to)[Pixel(b.target, x, y)], b.Color(v.Get(b.from)[Pixel(b.source, x, y)]))
  }

  /** No address belongs to both rectangles. */
  predicate Separate(r: Rect, s: Rect) { forall a: Address :: !(Inside(r, a) && Inside(s, a)) }

  // ----- what a blit reads after it wrote it -----

  /** How far the target starts behind the source, the surface's end wrapping to its start. */
  function Lead(b: Blit): nat { Wrap(b.target - b.source) }

  /** The target starts inside the part of the source still to be read. */
  predicate Trails(b: Blit) {
    var dx, dy := Lead(b) % 256, Lead(b) / 256;
    Lead(b) != 0 && ((dx < b.w && dy < b.h) || (dx + b.w > 256 && dy + 1 < b.h))
  }

  /** No source pixel is written before it is read. */
  predicate Clear(b: Blit) { b.from != b.to || !Trails(b) }

  /** Pixel (x', y') of the target, written first, is pixel (x, y) of the source. */
  predicate Overwrites(b: Blit, x': nat, y': nat, x: nat, y: nat) {
    && x' < b.w && y' < b.h && x < b.w && y < b.h
    && Index(b.w, x', y') < Index(b.w, x, y) && Pixel(b.target, x', y') == Pixel(b.source, x, y)
  }

  /** The pixels are as far apart as the rectangles. */
  lemma Apart(b: Blit, x': nat, y': nat, x: nat, y: nat)
    requires x' < b.w && y' < b.h && x < b.w && y < b.h
    ensures Index(b.w, x', y') < Index(b.w, x, y) <==> 256 * y' + x' < 256 * y + x
    ensures Overwrites(b, x', y', x, y) <==> Lead(b) != 0 && 256 * y + x == 256 * y' + x' + Lead(b)
  {
    hide Pixel, Wrap;
    IndexOrder(b.w, x', y', x, y);
    SamePixel(b.target, 256 * y' + x', b.source, 256 * y + x);
    PixelWraps(b.target, x', y');
    PixelWraps(b.source, x, y);
  }

  lemma PixelWraps(start: Address, x: nat, y: nat)
    ensures Pixel(start, x, y) == Wrap(start + (256 * y + x))
  {
  }

  lemma SamePixel(t: Address, i: nat, s: Address, k: nat)
    requires i < 65536 && k < 65536
    ensures var d := Wrap(t - s);
            Wrap(t + i) == Wrap(s + k) <==> k == i + d || k == i + d - 65536
  {
    assert Wrap(t - s) == if t >= s then t - s else t - s + 65536;
    assert Wrap(t + i) == if t + i < 65536 then t + i else t + i - 65536;
    assert Wrap(s + k) == if s + k < 65536 then s + k else s + k - 65536;
  }

  lemma IndexOrder(w: Side, x': nat, y': nat, x: nat, y: nat)
    requires x' < w && x < w
    ensures Index(w, x', y') < Index(w, x, y) <==> 256 * y' + x' < 256 * y + x
  {
    if y' < y { Multiples(w, y', y); }
    if y < y' { Multiples(w, y, y'); }
  }

  /** A trailing blit reads a pixel after it wrote it; the first one is known. */
  lemma FirstOverwritten(b: Blit) returns (x': nat, y': nat, x: nat, y: nat)
    requires Trails(b)
    ensures Overwrites(b, x', y', x, y)
    ensures forall i', j', i, j :: Overwrites(b, i', j', i, j) ==> Index(b.w, i, j) >= Index(b.w, x, y)
  {
    hide Overwrites, Index, Wrap;
    var dx, dy := Lead(b) % 256, Lead(b) / 256;
    x', y', x, y := 0, 0, dx, dy;
    if dx >= b.w || dy >= b.h {
      x', x, y := 256 - dx, 0, dy + 1;
    }
    Apart(b, x', y', x, y);
    forall i', j', i, j | Overwrites(b, i', j', i, j)
      ensures Index(b.w, i, j) >= Index(b.w, x, y)
    {
      OverwritesInside(b, i', j', i, j);
      Apart(b, i', j', i, j);
      IndexOrder(b.w, i, j, x, y);
    }
  }

  lemma OverwritesInside(b: Blit, x': nat, y': nat, x: nat, y: nat)
    requires Overwrites(b, x', y', x, y)
    ensures x' < b.w && y' < b.h && x < b.w && y < b.h && Index(b.w, x', y') < Index(b.w, x, y)
    ensures Pixel(b.target, x', y') == Pixel(b.source, x, y)
  {
  }

  /** The condition on the registers says just that. */
  lemma TrailsIs(b: Blit)
    ensures Trails(b) <==> exists x', y', x, y :: Overwrites(b, x', y', x, y)
  {
    hide Overwrites, Trails;
    if Trails(b) {
      var x', y', x, y := FirstOverwritten(b);
    }
    forall x', y', x, y | Overwrites(b, x', y', x, y)
      ensures Trails(b)
    {
      OverwritesTrails(b, x', y', x, y);
    }
  }

  lemma OverwritesTrails(b: Blit, x': nat, y': nat, x: nat, y: nat)
    requires Overwrites(b, x', y', x, y)
    ensures Trails(b)
  {
    hide Overwrites, Index, Pixel, Lead;
    OverwritesInside(b, x', y', x, y);
    Apart(b, x', y', x, y);
    var d := Lead(b);
    if x >= x' {
      assert d == 256 * (y - y') + (x - x');
    } else {
      assert d == 256 * (y - y' - 1) + (x - x' + 256);
    }
  }

  /** The operator gives the same whether a source pixel was mixed before or not, for all bytes that source, target
    * and the first pixel's source can hold. Half a surface apart, the last two are one byte. */
  ghost predicate Absorbs(b: Blit) {
    forall a: Byte, c: Byte, t: Byte :: (Lead(b) == 32768 ==> t == c) ==> SameMix(b, a, c, t)
  }

  predicate SameMix(b: Blit, a: Byte, c: Byte, t: Byte) {
    Combine(b.op, t, b.Color(Combine(b.op, a, b.Color(c)))) == Combine(b.op, t, b.Color(a))
  }

  // ----- the blit, pixel by pixel -----

  lemma MixedIndex(v: Video, b: Blit, x: nat, y: nat)
    requires v.Valid() && x < b.w && y < b.h
    ensures Index(b.w, x, y) < |Mixed(v, b)| && Mixed(v, b)[Index(b.w, x, y)] == MixedAt(v, b, x, y)
  {
    hide MixedAt, Across, Down;
    IndexBound(b.Target(), x, y);
    DivMod(b.w, x, y);
  }

  lemma DivMod(w: Side, x: nat, y: nat)
    requires x < w
    ensures Across(Index(w, x, y), w) == x && Down(Index(w, x, y), w) == y
  {
    hide Across, Down, Index;
    var k := Index(w, x, y);
    Euclid(k, w);
    IndexUnique(w, x, y, Across(k, w), Down(k, w));
  }

  lemma Euclid(k: nat, w: Side)
    ensures Across(k, w) < w && Index(w, Across(k, w), Down(k, w)) == k
  {
  }

  /** The video while the blit is under way. */
  predicate Partly(v: Video, b: Blit, k: nat, u: Video)
    requires v.Valid() && k <= |Mixed(v, b)|
  {
    u.Valid() && u.Get(b.to) == Painted(v.Get(b.to), b.Target(), k, Mixed(v, b)) && u.Get(!b.to) == v.Get(!b.to)
  }

  /** The source pixel when the blit comes to it: as before, or mixed once. */
  lemma SourcePixel(v: Video, b: Blit, x: nat, y: nat, u: Video)
    requires v.Valid() && x < b.w && y < b.h && Index(b.w, x, y) < |Mixed(v, b)|
    requires Partly(v, b, Index(b.w, x, y), u)
    ensures var q := Pixel(b.source, x, y);
            && (b.from != b.to || (forall x', y' :: !Overwrites(b, x', y', x, y)) ==>
                  u.Get(b.from)[q] == v.Get(b.from)[q])
            && (forall x', y' | b.from == b.to && Overwrites(b, x', y', x, y) ::
                  u.Get(b.from)[q] == MixedAt(v, b, x', y'))
  {
    hide Pixel, Index, Column, Row, Combine, Mixed, MixedAt;
    var q, r := Pixel(b.source, x, y), b.Target();
    AtPixel(b.target, q);
    if b.from == b.to && Inside(r, q) && IndexOf(r, q) < Index(b.w, x, y) {
      assert Overwrites(b, Column(b.target, q), Row(b.target, q), x, y);
    }
    forall x', y' | b.from == b.to && Overwrites(b, x', y', x, y)
      ensures u.Get(b.from)[q] == MixedAt(v, b, x', y')
    {
      PixelAt(b.target, x', y');
      MixedIndex(v, b, x', y');
    }
  }

  /** Half a surface apart, the target of a pixel is the source of the pixel that wrote its source. */
  lemma HalfApart(b: Blit, x': nat, y': nat, x: nat, y: nat)
    requires Overwrites(b, x', y', x, y)
    ensures Pixel(b.target, x, y) == Pixel(b.source, x', y') <==> Lead(b) == 32768
  {
    hide Wrap, Pixel, Overwrites;
    OverwritesInside(b, x', y', x, y);
    Apart(b, x', y', x, y);
    SamePixel(b.target, 256 * y + x, b.source, 256 * y' + x');
    PixelWraps(b.target, x, y);
    PixelWraps(b.source, x', y');
    LeadIs(b);
  }

  lemma LeadIs(b: Blit)
    ensures Lead(b) < 65536 && Lead(b) == Wrap(b.target - b.source)
  {
  }

  lemma PixelStep(v: Video, b: Blit, x: nat, y: nat, u: Video)
    requires v.Valid() && x < b.w && y < b.h && Index(b.w, x, y) < |Mixed(v, b)|
    requires b.from != b.to || (forall x', y' :: !Overwrites(b, x', y', x, y)) || Absorbs(b)
    requires Partly(v, b, Index(b.w, x, y), u)
    ensures Partly(v, b, Index(b.w, x, y) + 1, BlitPixel(u, b, x, y))
  {
    hide Pixel, Index, Column, Row, Combine, Mixed, Overwrites, Absorbs;
    var p, q := Pixel(b.target, x, y), Pixel(b.source, x, y);
    PixelAt(b.target, x, y);
    PaintNext(v.Get(b.to), b.Target(), x, y, Mixed(v, b));
    MixedIndex(v, b, x, y);
    SourcePixel(v, b, x, y, u);
    assert u.Get(b.to)[p] == v.Get(b.to)[p];
    if b.from == b.to && exists x', y' :: Overwrites(b, x', y', x, y) {
      var x', y' :| Overwrites(b, x', y', x, y);
      Absorbed(v, b, x', y', x, y);
    }
  }

  lemma Absorbed(v: Video, b: Blit, x': nat, y': nat, x: nat, y: nat)
    requires v.Valid() && b.from == b.to && Overwrites(b, x', y', x, y) && Absorbs(b)
    ensures Combine(b.op, v.Get(b.to)[Pixel(b.target, x, y)], b.Color(MixedAt(v, b, x', y'))) == MixedAt(v, b, x, y)
  {
    hide Pixel, Combine, Overwrites;
    var s := v.Get(b.to);
    HalfApart(b, x', y', x, y);
    OverwritesInside(b, x', y', x, y);
    assert SameMix(b, s[Pixel(b.source, x, y)], s[Pixel(b.source, x', y')], s[Pixel(b.target, x, y)]);
  }

  lemma {:induction false} BlitSteps(v: Video, b: Blit, x: nat, y: nat, u: Video)
    requires v.Valid() && x < b.w && y < b.h && (Clear(b) || Absorbs(b)) && Index(b.w, x, y) <= |Mixed(v, b)|
    requires Partly(v, b, Index(b.w, x, y), u)
    ensures Partly(v, b, |Mixed(v, b)|, BlitFrom(u, b, x, y))
    decreases b.h - y, b.w - x
  {
    hide Pixel, Mixed, Trails, Overwrites, Absorbs, Partly, BlitPixel;
    PartlyValid(v, b, Index(b.w, x, y), u);
    MixedIndex(v, b, x, y);
    TrailsIs(b);
    PixelStep(v, b, x, y, u);
    if x + 1 < b.w {
      BlitSteps(v, b, x + 1, y, BlitPixel(u, b, x, y));
    } else {
      IndexNextRow(b.w, y);
      if y + 1 < b.h {
        IndexBound(b.Target(), 0, y + 1);
        BlitSteps(v, b, 0, y + 1, BlitPixel(u, b, x, y));
      }
    }
  }

  lemma PartlyValid(v: Video, b: Blit, k: nat, u: Video)
    requires v.Valid() && k <= |Mixed(v, b)| && Partly(v, b, k, u)
    ensures u.Valid()
  {
  }

  /** The blit is right: each pixel of the target is mixed with the source's as they were before, and no other
    * pixel of either surface changes. */
  predicate Right(v: Video, b: Blit)
    requires v.Valid()
  {
    BlitFrom(v, b, 0, 0) == v.Put(b.to, Painted(v.Get(b.to), b.Target(), b.h * b.w, Mixed(v, b)))
  }

  lemma BlitPaints(v: Video, b: Blit)
    requires v.Valid() && (Clear(b) || Absorbs(b))
    ensures Right(v, b)
  {
    hide Clear, Absorbs, BlitFrom, Painted, Mixed;
    PaintNothing(v.Get(b.to), b.Target(), Mixed(v, b));
    assert Partly(v, b, 0, v);
    BlitSteps(v, b, 0, 0, v);
  }

  // ----- and when it is not -----

  /** Up to the first overwritten pixel all goes well. */
  lemma {:induction false} BlitUntil(v: Video, b: Blit, x: nat, y: nat, u: Video, i: nat, j: nat) returns (u': Video)
    requires v.Valid() && x < b.w && y < b.h && i < b.w && j < b.h && Index(b.w, x, y) <= Index(b.w, i, j)
    requires Index(b.w, x, y) <= |Mixed(v, b)| && Partly(v, b, Index(b.w, x, y), u)
    requires forall k', l', k, l :: Overwrites(b, k', l', k, l) ==> Index(b.w, k, l) >= Index(b.w, i, j)
    ensures u.Valid() && Index(b.w, i, j) < |Mixed(v, b)| && Partly(v, b, Index(b.w, i, j), u')
    ensures u'.Valid() && BlitFrom(u, b, x, y) == BlitFrom(u', b, i, j)
    decreases b.h - y, b.w - x
  {
    hide Pixel, Index, Mixed, Overwrites, Absorbs, Partly, BlitPixel;
    PartlyValid(v, b, Index(b.w, x, y), u);
    MixedIndex(v, b, i, j);
    if x == i && y == j {
      u' := u;
    } else {
      IndexDiffers(b.w, x, y, i, j);
      PixelStep(v, b, x, y, u);
      IndexNext(b, x, y, i, j);
      if x + 1 < b.w {
        u' := BlitUntil(v, b, x + 1, y, BlitPixel(u, b, x, y), i, j);
      } else {
        u' := BlitUntil(v, b, 0, y + 1, BlitPixel(u, b, x, y), i, j);
      }
    }
  }

  lemma IndexDiffers(w: Side, x: nat, y: nat, i: nat, j: nat)
    requires x < w && i < w && (x != i || y != j)
    ensures Index(w, x, y) != Index(w, i, j)
  {
    hide Index;
    if Index(w, x, y) == Index(w, i, j) { IndexUnique(w, x, y, i, j); }
  }

  /** The pixel after one that is not the last. */
  lemma IndexNext(b: Blit, x: nat, y: nat, i: nat, j: nat)
    requires x < b.w && y < b.h && i < b.w && j < b.h && Index(b.w, x, y) < Index(b.w, i, j)
    ensures x + 1 < b.w ==> Index(b.w, x + 1, y) == Index(b.w, x, y) + 1
    ensures x + 1 == b.w ==> y + 1 < b.h && Index(b.w, 0, y + 1) == Index(b.w, x, y) + 1
  {
    if x + 1 == b.w {
      IndexNextRow(b.w, y);
      if j <= y { IndexOrder(b.w, x, y, i, j); }
    }
  }

  /** A target pixel is written once. */
  lemma {:induction false} KeptLater(u: Video, b: Blit, x: nat, y: nat, i: nat, j: nat)
    requires u.Valid() && x < b.w && y < b.h && i < b.w && j < b.h && Index(b.w, i, j) < Index(b.w, x, y)
    ensures BlitFrom(u, b, x, y).Get(b.to)[Pixel(b.target, i, j)] == u.Get(b.to)[Pixel(b.target, i, j)]
    decreases b.h - y, b.w - x
  {
    hide Pixel, Index, Combine;
    PixelAt(b.target, i, j);
    PixelAt(b.target, x, y);
    if x + 1 < b.w {
      IndexStep(b.w, x, y);
      KeptLater(BlitPixel(u, b, x, y), b, x + 1, y, i, j);
    } else if y + 1 < b.h {
      IndexNextRow(b.w, y);
      KeptLater(BlitPixel(u, b, x, y), b, 0, y + 1, i, j);
    }
  }

  lemma IndexStep(w: Side, x: nat, y: nat)
    ensures Index(w, x + 1, y) == Index(w, x, y) + 1
  {
  }

  /** What the first overwritten pixel becomes. */
  lemma {:induction false} FirstSpoiled(v: Video, b: Blit, x': nat, y': nat, x: nat, y: nat)
    requires v.Valid() && b.from == b.to && Overwrites(b, x', y', x, y)
    requires forall i', j', i, j :: Overwrites(b, i', j', i, j) ==> Index(b.w, i, j) >= Index(b.w, x, y)
    ensures BlitFrom(v, b, 0, 0).Get(b.to)[Pixel(b.target, x, y)] ==
            Combine(b.op, v.Get(b.to)[Pixel(b.target, x, y)], b.Color(MixedAt(v, b, x', y')))
  {
    hide Pixel, Index, Mixed, MixedAt, Combine, Overwrites, Painted;
    OverwritesInside(b, x', y', x, y);
    FirstIndex(b.w);
    PaintNothing(v.Get(b.to), b.Target(), Mixed(v, b));
    var u := BlitUntil(v, b, 0, 0, v, x, y);
    SourcePixel(v, b, x, y, u);
    NotYet(v, b, x, y, u);
    LastWrite(u, b, x, y);
  }

  lemma FirstIndex(w: Side)
    ensures Index(w, 0, 0) == 0
  {
  }

  lemma NotYet(v: Video, b: Blit, x: nat, y: nat, u: Video)
    requires v.Valid() && x < b.w && y < b.h && Index(b.w, x, y) <= |Mixed(v, b)| && Partly(v, b, Index(b.w, x, y), u)
    ensures u.Get(b.to)[Pixel(b.target, x, y)] == v.Get(b.to)[Pixel(b.target, x, y)]
  {
    hide Pixel, Index, Mixed, Column, Row;
    PixelAt(b.target, x, y);
  }

  lemma {:induction false} LastWrite(u: Video, b: Blit, x: nat, y: nat)
    requires u.Valid() && x < b.w && y < b.h
    ensures var p := Pixel(b.target, x, y);
            BlitFrom(u, b, x, y).Get(b.to)[p] ==
              Combine(b.op, u.Get(b.to)[p], b.Color(u.Get(b.from)[Pixel(b.source, x, y)]))
  {
    hide Pixel, Index, Combine;
    if x + 1 < b.w {
      IndexStep(b.w, x, y);
      KeptLater(BlitPixel(u, b, x, y), b, x + 1, y, x, y);
    } else if y + 1 < b.h {
      IndexNextRow(b.w, y);
      KeptLater(BlitPixel(u, b, x, y), b, 0, y + 1, x, y);
    }
  }

  /** A surface that shows the difference. */
  lemma Spoils(b: Blit, a: Byte, c: Byte, t: Byte) returns (v: Video)
    requires !Clear(b) && (Lead(b) == 32768 ==> t == c) && !SameMix(b, a, c, t)
    ensures v.Valid() && !Right(v, b)
  {
    hide Pixel, Index, Combine, Overwrites, Painted, Mixed, MixedAt, BlitFrom, Lead;
    var x', y', x, y := FirstOverwritten(b);
    OverwritesInside(b, x', y', x, y);
    HalfApart(b, x', y', x, y);
    PixelsDiffer(b, x', y', x, y);
    var p, q, q' := Pixel(b.target, x, y), Pixel(b.source, x, y), Pixel(b.source, x', y');
    var s: seq<Byte> := seq(65536, k => 0)[p := t][q' := c][q := a];
    v := Video(s, s);
    FirstSpoiled(v, b, x', y', x, y);
    MixedHere(v, b, x', y');
    MixedHere(v, b, x, y);
    PaintedHere(v, b, x, y);
  }

  lemma PixelsDiffer(b: Blit, x': nat, y': nat, x: nat, y: nat)
    requires Overwrites(b, x', y', x, y)
    ensures Pixel(b.target, x, y) != Pixel(b.source, x, y) && Pixel(b.source, x', y') != Pixel(b.source, x, y)
  {
    hide Pixel, Index;
    PixelAt(b.target, x, y);
    PixelAt(b.target, x', y');
    PixelAt(b.source, x, y);
    PixelAt(b.source, x', y');
  }

  lemma MixedHere(v: Video, b: Blit, x: nat, y: nat)
    requires v.Valid() && b.from == b.to
    ensures MixedAt(v, b, x, y) == Combine(b.op, v.Get(b.to)[Pixel(b.target, x, y)],
                                           b.Color(v.Get(b.to)[Pixel(b.source, x, y)]))
  {
    hide Combine, Pixel;
  }

  lemma PaintedHere(v: Video, b: Blit, x: nat, y: nat)
    requires v.Valid() && x < b.w && y < b.h
    ensures Painted(v.Get(b.to), b.Target(), b.h * b.w, Mixed(v, b))[Pixel(b.target, x, y)] == MixedAt(v, b, x, y)
  {
    hide Pixel, Index, Column, Row, Mixed, MixedAt;
    PixelAt(b.target, x, y);
    MixedIndex(v, b, x, y);
  }

  /** A blit is right whatever the surfaces hold exactly when no source pixel is written before it is read, or the
    * operator does not mind. */
  lemma BlitExact(b: Blit)
    ensures (forall v: Video :: v.Valid() ==> Right(v, b)) <==> Clear(b) || Absorbs(b)
  {
    hide Right, Clear, SameMix, Video.Valid;
    if Clear(b) || Absorbs(b) {
      forall v: Video | v.Valid()
        ensures Right(v, b)
      {
        BlitPaints(v, b);
      }
    } else {
      var a: Byte, c: Byte, t: Byte :| (Lead(b) == 32768 ==> t == c) && !SameMix(b, a, c, t);
      var v := Spoils(b, a, c, t);
    }
  }

  /** On this target the operator gives the color itself, or its negative. */
  function Neutral(op: nat): Byte { if op == 3 then 255 else if op == 6 then 1 else 0 }

  function Negated(c: Byte): Byte { if c == 0 then 0 else 256 - c }

  function Shown(op: nat, c: Byte): Byte { if op == 5 then Negated(c) else c }

  lemma OnNeutral(op: nat, c: Byte)
    requires op <= 6
    ensures Combine(op, Neutral(op), c) == Shown(op, c)
  {
    hide BitsOf;
    ZeroAndOnes(c);
  }

  lemma ZeroAndOnes(c: Byte)
    ensures BitsOf(OrF, 0, c) == c && BitsOf(XorF, 0, c) == c && BitsOf(AndF, 255, c) == c
  {
    assert Pow2(4) == 16 && Pow2(8) == 256;
    ZeroBits(OrF, 8, c);
    ZeroBits(XorF, 8, c);
    OneBits(8, c);
  }

  lemma {:induction false} ZeroBits(f: BitFn, k: nat, c: nat)
    requires c < Pow2(k) && !f.AndF?
    ensures Bitwise(f, k, 0, c) == c
  {
    if k > 0 {
      ZeroBits(f, k - 1, c / 2);
      assert c == c % 2 + 2 * (c / 2);
    }
  }

  lemma {:induction false} OneBits(k: nat, c: nat)
    requires c < Pow2(k)
    ensures Bitwise(AndF, k, Pow2(k) - 1, c) == c
  {
    if k > 0 {
      OneBits(k - 1, c / 2);
      assert (Pow2(k) - 1) / 2 == Pow2(k - 1) - 1 && (Pow2(k) - 1) % 2 == 1;
      assert c == c % 2 + 2 * (c / 2);
    }
  }

  /** Of the operators of the device only or and and may not mind. */
  lemma NeverAbsorbs(b: Blit)
    requires b.op <= 6 && (Lead(b) != 32768 || (b.op != 1 && b.op != 3))
    ensures !Absorbs(b)
  {
    hide Combine, Lead, Absorbs, Neutral, Shown, BitsOf;
    var e := Neutral(b.op);
    var c := OtherColor(b, e);
    OnNeutral(b.op, b.Color(c));
    OnNeutral(b.op, b.Color(e));
    OnNeutral(b.op, b.Color(Shown(b.op, b.Color(c))));
    if b.op == 1 || b.op == 3 {
      ShownApart(b.op, b.Color(e), b.Color(Shown(b.op, b.Color(c))));
      NotSame(b, e, c, e);
    } else {
      MixesApart(b.op, c, b.Color(e), b.Color(Shown(b.op, b.Color(c))));
      NotSame(b, e, c, c);
    }
  }

  /** Mixed into an odd number, different colors give different results. */
  lemma MixesApart(op: nat, t: Byte, c: Byte, c': Byte)
    requires op <= 6 && op != 1 && op != 3 && c != c' && t in {3, 5, 7, 9, 11}
    ensures Combine(op, t, c) != Combine(op, t, c')
  {
    hide Combine;
    Operators(op, t, c);
    Operators(op, t, c');
    if op == 2 {
      XorApart(t, c, c');
    } else if op == 6 {
      if t * c % 256 == t * c' % 256 { OddFactor(t, c, c'); }
    } else if op != 0 {
      SumsApart(t, c, c');
    }
  }

  lemma Operators(op: nat, t: Byte, c: Byte)
    ensures op == 0 ==> Combine(op, t, c) == c
    ensures op == 2 ==> Combine(op, t, c) == BitsOf(XorF, t, c)
    ensures op == 4 ==> Combine(op, t, c) == (t + c) % 256
    ensures op == 5 ==> Combine(op, t, c) == (t - c) % 256
    ensures op == 6 ==> Combine(op, t, c) == t * c % 256
  {
    hide BitsOf;
  }

  lemma SumsApart(t: Byte, c: Byte, c': Byte)
    requires c != c'
    ensures (t + c) % 256 != (t + c') % 256 && (t - c) % 256 != (t - c') % 256
  {
  }

  lemma XorApart(t: Byte, c: Byte, c': Byte)
    requires c != c'
    ensures BitsOf(XorF, t, c) != BitsOf(XorF, t, c')
  {
    assert Pow2(4) == 16 && Pow2(8) == 256;
    if BitsOf(XorF, t, c) == BitsOf(XorF, t, c') { XorInjective(8, t, c, c'); }
  }

  lemma {:induction false} XorInjective(k: nat, t: nat, c: nat, c': nat)
    requires c < Pow2(k) && c' < Pow2(k) && Bitwise(XorF, k, t, c) == Bitwise(XorF, k, t, c')
    ensures c == c'
  {
    if k > 0 {
      XorInjective(k - 1, t / 2, c / 2, c' / 2);
      assert c == c % 2 + 2 * (c / 2) && c' == c' % 2 + 2 * (c' / 2);
    }
  }

  /** Odd numbers have inverses modulo 256. */
  lemma OddFactor(t: Byte, c: Byte, c': Byte)
    requires t in {3, 5, 7, 9, 11} && t * c % 256 == t * c' % 256
    ensures c == c'
  {
    var u, k := if t == 3 then 171 else if t == 5 then 205 else if t == 7 then 183 else if t == 9 then 57 else 163,
                if t == 3 then 2 else if t == 5 then 4 else if t == 7 then 5 else if t == 9 then 2 else 7;
    assert t * u == 256 * k + 1;
    Inverse(t, u, k, c);
    Inverse(t, u, k, c');
  }

  lemma Inverse(t: Byte, u: Byte, k: nat, c: Byte)
    requires t * u == 256 * k + 1
    ensures u * (t * c % 256) % 256 == c
  {
    var q, m := t * c / 256, t * c % 256;
    calc {
      u * m;
      == { assert m == t * c - 256 * q; }
      u * (t * c - 256 * q);
      ==
      (t * u) * c - 256 * (u * q);
      ==
      c + 256 * (k * c - u * q);
    }
    Turns(c, k * c - u * q);
  }

  lemma Turns(c: Byte, z: int)
    ensures (c + 256 * z) % 256 == c
  {
  }

  lemma NotSame(b: Blit, a: Byte, c: Byte, t: Byte)
    requires !SameMix(b, a, c, t) && (Lead(b) == 32768 ==> t == c)
    ensures !Absorbs(b)
  {
    hide SameMix;
  }

  lemma ShownApart(op: nat, c: Byte, c': Byte)
    requires c != c'
    ensures Shown(op, c) != Shown(op, c')
  {
  }

  /** An odd byte whose color, mixed into e, does not show as that of e. */
  lemma OtherColor(b: Blit, e: Byte) returns (c: Byte)
    requires e == Neutral(b.op)
    ensures b.Color(Shown(b.op, b.Color(c))) != b.Color(e) && c in {3, 5, 7, 9, 11}
  {
    c := if Plain(b, e, 3) then 3 else if Plain(b, e, 5) then 5 else if Plain(b, e, 7) then 7
         else if Plain(b, e, 9) then 9 else 11;
  }

  predicate Plain(b: Blit, e: Byte, c: Byte) { c != b.find && Shown(b.op, c) !in [b.find, b.replace, e] }

  // ----- or and and, half a surface apart -----

  /** The one kind of blit that does not mind: or or and without a color to replace, half a surface apart. */
  predicate Harmless(b: Blit) { Lead(b) == 32768 && (b.op == 1 || b.op == 3) && b.find == b.replace }

  lemma HarmlessAbsorbs(b: Blit)
    requires Harmless(b)
    ensures Absorbs(b)
  {
    hide Lead, BitsOf;
    forall a: Byte, c: Byte, t: Byte | Lead(b) == 32768 ==> t == c
      ensures SameMix(b, a, c, t)
    {
      Twice(OrF, 8, a, c);
      Twice(AndF, 8, a, c);
      BytesTwice(OrF, a, c);
      BytesTwice(AndF, a, c);
    }
  }

  lemma {:induction false} BytesTwice(f: BitFn, a: Byte, c: Byte)
    requires Bitwise(f, 8, c, Bitwise(f, 8, a, c)) == Bitwise(f, 8, c, a)
    ensures BitsOf(f, c, BitsOf(f, a, c)) == BitsOf(f, c, a)
  {
  }

  lemma {:induction false} Twice(f: BitFn, k: nat, a: nat, c: nat)
    requires !f.XorF?
    ensures Bitwise(f, k, c, Bitwise(f, k, a, c)) == Bitwise(f, k, c, a)
  {
    if k > 0 {
      Twice(f, k - 1, a / 2, c / 2);
      var low, high := if f.On(a % 2 == 1, c % 2 == 1) then 1 else 0, Bitwise(f, k - 1, a / 2, c / 2);
      assert Bitwise(f, k, a, c) == low + 2 * high;
      assert (low + 2 * high) % 2 == low && (low + 2 * high) / 2 == high;
    }
  }

  function Or(x: Byte, y: Byte): Byte { BitsOf(OrF, x, y) }

  function Xor(x: Byte, y: Byte): Byte { BitsOf(XorF, x, y) }

  lemma {:induction false} OrLaws(k: nat, x: nat, y: nat)
    requires x < Pow2(k) && y < Pow2(k)
    ensures Bitwise(OrF, k, x, y) == Bitwise(OrF, k, y, x)
    ensures Bitwise(OrF, k, x, x) == x && Bitwise(OrF, k, x, 0) == x
    decreases k
  {
    if k > 0 {
      OrLaws(k - 1, x / 2, y / 2);
      assert x == x % 2 + 2 * (x / 2);
    }
  }

  lemma {:induction false} OrOnes(k: nat, x: nat)
    requires x < Pow2(k)
    ensures Bitwise(OrF, k, x, Pow2(k) - 1) == Pow2(k) - 1 && Bitwise(OrF, k, x, Pow2(k) - 1 - x) == Pow2(k) - 1
    decreases k
  {
    if k > 0 {
      OrOnes(k - 1, x / 2);
      var ones := Pow2(k) - 1;
      assert ones / 2 == Pow2(k - 1) - 1 && ones % 2 == 1;
      assert (ones - x) / 2 == ones / 2 - x / 2 && (ones - x) % 2 == 1 - x % 2;
    }
  }

  lemma {:induction false} XorLaws(k: nat, x: nat, y: nat)
    requires x < Pow2(k) && y < Pow2(k)
    ensures Bitwise(OrF, k, y, Bitwise(XorF, k, x, y)) == Bitwise(OrF, k, y, x)
    ensures Bitwise(OrF, k, Bitwise(XorF, k, x, y), y) == Bitwise(OrF, k, y, x)
    ensures Bitwise(XorF, k, x, y) == x ==> y == 0
    decreases k
  {
    if k > 0 {
      XorLaws(k - 1, x / 2, y / 2);
      var low, high := if x % 2 != y % 2 then 1 else 0, Bitwise(XorF, k - 1, x / 2, y / 2);
      assert Bitwise(XorF, k, x, y) == low + 2 * high;
      assert (low + 2 * high) % 2 == low && (low + 2 * high) / 2 == high;
      assert x == x % 2 + 2 * (x / 2) && y == y % 2 + 2 * (y / 2);
    }
  }

  lemma {:induction false} DeMorgan(k: nat, x: nat, y: nat)
    requires x < Pow2(k) && y < Pow2(k)
    ensures Bitwise(AndF, k, x, y) == Pow2(k) - 1 - Bitwise(OrF, k, Pow2(k) - 1 - x, Pow2(k) - 1 - y)
    decreases k
  {
    if k > 0 {
      DeMorgan(k - 1, x / 2, y / 2);
      var top := Pow2(k) - 1;
      assert top / 2 == Pow2(k - 1) - 1 && top % 2 == 1;
      assert (top - x) / 2 == top / 2 - x / 2 && (top - x) % 2 == 1 - x % 2;
      assert (top - y) / 2 == top / 2 - y / 2 && (top - y) % 2 == 1 - y % 2;
    }
  }

  lemma OrBytes(x: Byte, y: Byte)
    ensures Or(x, y) == Or(y, x) && Or(x, x) == x && Or(x, 0) == x && Or(0, x) == x
    ensures Or(x, 255) == 255 && Or(x, 255 - x) == 255
  {
    hide Bitwise;
    assert Pow2(4) == 16 && Pow2(8) == 256;
    OrLaws(8, x, y);
    OrLaws(8, x, 0);
    OrOnes(8, x);
  }

  lemma XorBytes(x: Byte, y: Byte)
    ensures Or(y, Xor(x, y)) == Or(y, x) && Or(Xor(x, y), y) == Or(y, x) && (Xor(x, y) == x ==> y == 0)
  {
    assert Pow2(4) == 16 && Pow2(8) == 256;
    XorLaws(8, x, y);
  }

  lemma AndBytes(x: Byte, y: Byte)
    ensures BitsOf(AndF, x, y) == 255 - Or(255 - x, 255 - y)
  {
    assert Pow2(4) == 16 && Pow2(8) == 256;
    DeMorgan(8, x, y);
  }

  lemma LowestBit(r: Byte)
    ensures Or(1, r) == 1 + 2 * (r / 2) && Or(2, 1) == 3
  {
    assert Pow2(4) == 16 && Pow2(7) == 128 && Pow2(8) == 256;
    ZeroBits(OrF, 7, r / 2);
    assert Bitwise(OrF, 8, 1, r) == 1 + 2 * Bitwise(OrF, 7, 0, r / 2);
    ZeroBits(OrF, 6, 0);
    assert Bitwise(OrF, 7, 1, 0) == 1 + 2 * Bitwise(OrF, 6, 0, 0);
    assert Bitwise(OrF, 8, 2, 1) == 1 + 2 * Bitwise(OrF, 7, 1, 0);
  }

  /** One color replaced by another. */
  function Dyed(find: Byte, replace: Byte, c: Byte): Byte { if c == find then replace else c }

  /** With a color to replace, or minds. */
  lemma OrMinds(f: Byte, r: Byte) returns (a: Byte, c: Byte)
    requires f != r
    ensures Or(c, Dyed(f, r, Or(a, Dyed(f, r, c)))) != Or(c, Dyed(f, r, a))
  {
    hide Or, Xor;
    OrBytes(f, r);
    OrBytes(r, f);
    if f == 0 {
      a, c := if r == 1 then 2 else 1, 0;
      LowestBit(r);
      OrBytes(a, r);
      OrBytes(Or(a, r), 0);
    } else if Or(f, r) != f {
      a, c := 0, f;
    } else if r != 0 {
      a, c := Xor(f, r), r;
      XorBytes(f, r);
    } else if f != 255 {
      a, c := f, 255 - f;
      OrBytes(c, f);
    } else {
      a, c := 1, 254;
      OrBytes(a, c);
      OrBytes(c, 0);
      LowestBit(c);
    }
  }

  /** And is or on complements. */
  lemma AndMinds(f: Byte, r: Byte) returns (a: Byte, c: Byte)
    requires f != r
    ensures BitsOf(AndF, c, Dyed(f, r, BitsOf(AndF, a, Dyed(f, r, c)))) != BitsOf(AndF, c, Dyed(f, r, a))
  {
    hide BitsOf, Or;
    var a', c' := OrMinds(255 - f, 255 - r);
    a, c := 255 - a', 255 - c';
    AndBytes(a, Dyed(f, r, c));
    AndBytes(c, Dyed(f, r, BitsOf(AndF, a, Dyed(f, r, c))));
    AndBytes(c, Dyed(f, r, a));
  }

  /** An operator of the device minds, but in one case. */
  lemma AbsorbsIs(b: Blit)
    requires b.op <= 6
    ensures Absorbs(b) <==> Harmless(b)
  {
    hide Absorbs, Lead, BitsOf;
    if Harmless(b) {
      HarmlessAbsorbs(b);
    } else if Lead(b) != 32768 || (b.op != 1 && b.op != 3) {
      NeverAbsorbs(b);
    } else if b.op == 1 {
      var a, c := OrMinds(b.find, b.replace);
      NotSame(b, a, c, c);
    } else {
      var a, c := AndMinds(b.find, b.replace);
      NotSame(b, a, c, c);
    }
  }

  /** The operators of the device: right whatever the surfaces hold exactly when the registers say the blit is clear or
      harmless. */
  lemma OperatorExact(b: Blit)
    requires b.op <= 6
    ensures (forall v: Video :: v.Valid() ==> Right(v, b)) <==> Clear(b) || Harmless(b)
  {
    hide Right, Clear, Absorbs, Harmless, Video.Valid;
    BlitExact(b);
    AbsorbsIs(b);
  }

  /** The source's pixels row by row, with the colour replaced. */
  function Read(v: Video, b: Blit): (r: seq<Byte>)
    requires v.Valid()
    ensures |r| == b.h * b.w
  {
    seq(Count(b.w, b.h), k requires 0 <= k < Count(b.w, b.h) =>
      b.Color(v.Get(b.from)[Pixel(b.source, Across(k, b.w), Down(k, b.w))]))
  }

  /** Streaming the source's pixels instead. */
  function StreamedCopy(v: Video, b: Blit): Stream
    requires v.Valid()
  {
    Streamed(Stream(v.Get(b.to), Begun(b.target)), b.w, b.h, Read(v, b))
  }

  /** Streaming a source rectangle paints the target as the copying blit should. */
  lemma {:induction false} StreamIsCopy(v: Video, b: Blit)
    requires v.Valid() && b.op == COPY
    ensures !StreamedCopy(v, b).p.waiting
    ensures BlitFrom(v, b, 0, 0) == v.Put(b.to, StreamedCopy(v, b).surface) <==> Right(v, b)
  {
    hide Pixel, Painted, Streamed, BlitFrom, Across, Down;
    StreamPaints(v.Get(b.to), b.Target(), Read(v, b));
    assert Read(v, b) == Mixed(v, b);
  }

  /** It gives the same as the blit, whatever the surfaces hold, exactly when the blit is clear. */
  lemma {:induction false} StreamExact(b: Blit)
    requires b.op == COPY
    ensures (forall v: Video :: v.Valid() ==> BlitFrom(v, b, 0, 0) == v.Put(b.to, StreamedCopy(v, b).surface))
            <==> Clear(b)
  {
    hide Right, Clear, Lead, StreamedCopy, BlitFrom, Video.Valid, Video.Put;
    OperatorExact(b);
    forall v: Video | v.Valid()
      ensures BlitFrom(v, b, 0, 0) == v.Put(b.to, StreamedCopy(v, b).surface) <==> Right(v, b)
    {
      StreamIsCopy(v, b);
    }
  }

  /** An example: a copy one pixel to the right on the same surface smears the first pixel over the row. */
  lemma {:induction false} OverlapSmears(v: Video)
    requires v.Valid() && v.s0[0] == 1 && v.s0[1] == 2
    ensures var b := Blit(COPY, false, 0, false, 1, 2, 1, 0, 0);
            !Clear(b) && BlitFrom(v, b, 0, 0).s0[2] == 1 && Read(v, b)[1] == 2
  {
    hide Pixel, BlitFrom, Across, Down;
    var b := Blit(COPY, false, 0, false, 1, 2, 1, 0, 0);
    NoTurn(0, 0, b.w);
    NoTurn(0, 1, b.w);
    NoTurn(1, 0, b.w);
    NoTurn(1, 1, b.w);
    TwoPixels(v, b);
    var v1 := BlitPixel(v, b, 0, 0);
    assert v1.s0[1] == 1;
  }

  /** A pixel that needs no turn, and the first pixels of a row. */
  lemma NoTurn(start: Address, x: nat, w: Side)
    requires start + x < 65536 && x < w
    ensures Pixel(start, x, 0) == start + x && Across(x, w) == x && Down(x, w) == 0
  {
    assert start + 256 * 0 + x == start + x;
    assert x / w == 0;
  }

  lemma {:induction false} TwoPixels(v: Video, b: Blit)
    requires v.Valid() && b.w == 2 && b.h == 1
    ensures BlitFrom(v, b, 0, 0) == BlitPixel(BlitPixel(v, b, 0, 0), b, 1, 0)
  {
    hide BlitPixel;
    assert BlitFrom(v, b, 0, 0) == BlitFrom(BlitPixel(v, b, 0, 0), b, 1, 0);
  }

  // ----- tiles -----

  const BAD: Address := 0xFFFF

  /** Where a tile of a bank starts on its surface; size 0 to 3 stands for 8, 16, 32 and 64 pixels. */
  function TileAt(size: nat, bank: nat, index: Byte): Address
    requires size <= 3
  {
    var b := bank % 4 * 16384;
    match size
    case 0 => b + index % 32 * 8 + index / 32 * 2048
    case 1 => if index > 63 then BAD else b + index % 16 * 16 + index / 16 * 4096
    case 2 => if index > 15 then BAD else b + index % 8 * 32 + index / 8 * 8192
    case 3 => if index > 3 then BAD else b + index * 64
  }

  function TileSide(size: nat): Side
    requires size <= 3
  {
    match size case 0 => 8 case 1 => 16 case 2 => 32 case 3 => 64
  }

  function Tile(size: nat, bank: nat, index: Byte): Rect
    requires size <= 3
  {
    Rect(TileAt(size, bank, index), TileSide(size), TileSide(size))
  }

  /** A tile on the grid of its bank covers whole rows and columns of the grid and does not wrap. */
  lemma InGrid(bank: nat, row: nat, col: nat, side: Side, a: Address)
    requires bank < 4 && row + side <= 64 && col + side <= 256
    ensures var r := Rect(bank * 16384 + row * 256 + col, side, side);
            Inside(r, a) <==> bank * 64 + row <= a / 256 < bank * 64 + row + side && col <= a % 256 < col + side
  {
    var start := bank * 16384 + row * 256 + col;
    var d := Wrap(a - start);
    if a >= start {
      assert d == a - start;
    } else {
      assert d == a - start + 65536;
    }
  }

  function TileRow(size: nat, index: Byte): nat
    requires size <= 3
  {
    match size case 0 => index / 32 * 8 case 1 => index / 16 * 16 case 2 => index / 8 * 32 case 3 => 0
  }

  function TileColumn(size: nat, index: Byte): nat
    requires size <= 3
  {
    match size case 0 => index % 32 * 8 case 1 => index % 16 * 16 case 2 => index % 8 * 32 case 3 => index * 64
  }

  lemma TileCell(size: nat, bank: nat, index: Byte)
    requires size <= 3 && TileAt(size, bank, index) != BAD
    ensures var s, row, col := TileSide(size), TileRow(size, index), TileColumn(size, index);
            row + s <= 64 && col + s <= 256 && TileAt(size, bank, index) == bank % 4 * 16384 + row * 256 + col
  {
    match size {
      case 0 =>
      case 1 =>
      case 2 =>
      case 3 =>
    }
  }

  lemma CellsDiffer(size: nat, bank: nat, i: Byte, j: Byte)
    requires size <= 3 && TileAt(size, bank, i) != BAD && TileAt(size, bank, j) != BAD && i < j
    ensures TileRow(size, i) + TileSide(size) <= TileRow(size, j)
            || (TileRow(size, i) == TileRow(size, j) &&
                TileColumn(size, i) + TileSide(size) <= TileColumn(size, j))
  {
    match size {
      case 0 => Later(32, i, j);
      case 1 => Later(16, i, j);
      case 2 => Later(8, i, j);
      case 3 =>
    }
  }

  lemma Later(n: nat, i: nat, j: nat)
    requires n in {8, 16, 32} && i < j
    ensures i / n < j / n || (i / n == j / n && i % n < j % n)
  {
  }

  /** The tiles of a bank lie in the bank's 64 rows, and no two of them share a pixel. */
  lemma TilesApart(size: nat, bank: nat, i: Byte, j: Byte)
    requires size <= 3 && TileAt(size, bank, i) != BAD && TileAt(size, bank, j) != BAD
    ensures forall a: Address :: Inside(Tile(size, bank, i), a) ==> a / 16384 == bank % 4
    ensures i != j ==> Separate(Tile(size, bank, i), Tile(size, bank, j))
  {
    hide Inside, TileAt, TileRow, TileColumn, TileSide;
    TileCell(size, bank, i);
    TileCell(size, bank, j);
    if i < j { CellsDiffer(size, bank, i, j); }
    if j < i { CellsDiffer(size, bank, j, i); }
    forall a: Address
      ensures Inside(Tile(size, bank, i), a) ==> a / 16384 == bank % 4
      ensures i != j ==> !(Inside(Tile(size, bank, i), a) && Inside(Tile(size, bank, j), a))
    {
      InGrid(bank % 4, TileRow(size, i), TileColumn(size, i), TileSide(size), a);
      InGrid(bank % 4, TileRow(size, j), TileColumn(size, j), TileSide(size), a);
    }
  }
}
