/** A code map saved and loaded, several of them loaded into one, and files embedded in files. */
module CodeMapOk {
  import opened Options
  import opened CodeMap
  import opened CodeMapRead

  predicate Apart(a: Cells, b: Cells) { forall x :: x in a ==> x !in b }

  predicate HasFree(m: Cells) { exists a :: 0 <= a < 65536 && a !in m }

  // ----- one block, one map -----

  function Patch(a: nat, bs: seq<Byte>): (p: Cells)
    requires a + |bs| <= 65536
    ensures forall x :: x in p <==> a <= x < a + |bs|
    ensures forall x :: x in p ==> p[x] == bs[x - a]
    decreases |bs|
  {
    if bs == [] then map[] else map[a := bs[0]] + Patch(a + 1, bs[1..])
  }

  lemma ApartStep(m: Cells, a: nat, b: Byte, rest: Cells)
    requires 0 <= a < 65536 && a !in rest
    ensures Apart(map[a := b] + rest, m) <==> a !in m && Apart(rest, m[a := b])
    ensures m[a := b] + rest == m + (map[a := b] + rest)
  {
    var p: Cells := map[a := b] + rest;
    assert a in p && forall x :: x in rest ==> x in p;
  }

  lemma FillStep(m: Cells, a: nat, bs: seq<Byte>, overlap: bool)
    requires a + |bs| <= 65536
    ensures Fill(m, a, bs, overlap) ==
            if bs == [] then Full(m)
            else if a in m && !overlap then Clash(Overlap)
            else Fill(m[a := bs[0]], a + 1, bs[1..], overlap)
  {
  }

  lemma {:induction false} FillOk(m: Cells, a: nat, bs: seq<Byte>, overlap: bool)
    requires a + |bs| <= 65536
    ensures Fill(m, a, bs, overlap) ==
            if overlap || Apart(Patch(a, bs), m) then Full(m + Patch(a, bs)) else Clash(Overlap)
    decreases |bs|
  {
    hide Apart, Fill, Patch;
    FillStep(m, a, bs, overlap);
    PatchFirst(a, bs);
    if bs == [] {
      NoneApart(m);
    } else {
      ApartStep(m, a, bs[0], Patch(a + 1, bs[1..]));
      if a !in m || overlap {
        FillOk(m[a := bs[0]], a + 1, bs[1..], overlap);
      }
    }
  }

  lemma NoneApart(m: Cells)
    ensures Apart(map[], m) && m + map[] == m
  {
  }

  lemma PatchFirst(a: nat, bs: seq<Byte>)
    requires a + |bs| <= 65536
    ensures Patch(a, bs) == if bs == [] then map[] else map[a := bs[0]] + Patch(a + 1, bs[1..])
  {
  }

  function From(m: Cells, a: nat): Cells { map x | x in m && x >= a :: m[x] }

  lemma {:induction false} BlocksPlain(m: Cells, a: nat)
    requires a <= 65536 && HasFree(m)
    ensures AllPlain(Blocks(m, a))
    decreases 65536 - a
  {
    var s := FirstUsed(m, a);
    if s < 65536 {
      var e := FirstFree(m, s);
      var free :| 0 <= free < 65536 && free !in m;
      assert Plain(Data(s, Span(m, s, e)));
      BlocksPlain(m, e);
    }
  }

  lemma {:induction false} SpanPatch(m: Cells, s: nat, e: nat)
    requires s <= e <= 65536 && forall x :: s <= x < e ==> x in m
    ensures var p := Patch(s, Span(m, s, e));
            (forall x :: x in p <==> s <= x < e) && forall x :: x in p ==> p[x] == m[x]
  {
    hide Patch;
  }

  lemma {:induction false} SpanIsPatch(m: Cells, a: nat)
    requires a <= 65536
    ensures var s := FirstUsed(m, a);
            s < 65536 ==>
              var e := FirstFree(m, s);
              From(m, a) == Patch(s, Span(m, s, e)) + From(m, e)
  {
    hide Patch, Span, FirstUsed, FirstFree;
    var s := FirstUsed(m, a);
    if s < 65536 {
      SpanPatch(m, s, FirstFree(m, s));
    }
  }

  /** A map falls apart into what is written first and the rest. */
  lemma ApartSplit(m: Cells, p: Cells, q: Cells)
    requires forall x :: x in p ==> x !in q
    ensures Apart(p + q, m) <==> Apart(p, m) && Apart(q, m + p)
    ensures m + p + q == m + (p + q)
  {
    assert forall x :: x in p || x in q ==> x in p + q;
  }

  /** Writing a map block by block and storing the blocks again adds just that map. */
  lemma {:induction false} BlocksRun(f: Format, m: Cells, a: nat, c: Chain, overlap: bool)
    requires a <= 65536
    ensures RunBlocks(f, Blocks(m, a), c, overlap) ==
            if overlap || Apart(From(m, a), c.cur.cells) then Done(c.Named().WithCells(c.cur.cells + From(m, a)))
            else Broke(Overlap)
    decreases 65536 - a
  {
    hide Apart, Fill, Patch, Span;
    var s, had := FirstUsed(m, a), c.cur.cells;
    if s == 65536 {
      assert From(m, a) == map[];
      assert had + From(m, a) == had;
      NoneApart(had);
    } else {
      var e := FirstFree(m, s);
      var p, q := Patch(s, Span(m, s, e)), From(m, e);
      FillOk(had, s, Span(m, s, e), overlap);
      SpanIsPatch(m, a);
      ApartSplit(had, p, q);
      assert Blocks(m, a)[1..] == Blocks(m, e);
      if overlap || Apart(p, had) {
        var c' := c.Named().WithCells(had + p);
        BlocksRun(f, m, e, c', overlap);
      }
    }
  }

  const Unknown: Banks := Banks(None, None)

  /** Loading a saved map with a free cell into any map: refused exactly when cells would be written twice. */
  lemma SaveLoads(m: Cells, f: Format, head: Node, overlap: bool)
    requires HasFree(m)
    ensures Load(Save(m, f), head, overlap) ==
            if overlap || Apart(m, head.cells) then Loaded(Chain([], Node(head.cells + m, Unknown), Unknown), [])
            else Failed(Overlap)
  {
    hide LoadFile, RenderSection, RunBlocks, Blocks;
    var s := Section(f, Blocks(m, 0));
    BlocksPlain(m, 0);
    LoadIsRun([s], head, overlap);
    assert Render([s]) == RenderSection(s);
    BlocksRun(f, m, 0, Start(head), overlap);
    assert From(m, 0) == m;
    assert [s][1..] == [];
  }

  // ----- a full map is lost -----

  predicate Small(c: Chain, n: nat) {
    |c.cur.cells| <= n && forall i :: 0 <= i < |c.done| ==> |c.done[i].cells| <= n
  }

  lemma PutSmall(m: Cells, a: nat, b: Byte, overlap: bool)
    ensures var r := PutByte(m, a, b, overlap); r.Full? ==> |r.cells| <= |m| + 1
  {
    assert m[a := b].Keys == m.Keys + {a};
  }

  lemma {:induction false} PutBytesSmall(file: seq<Byte>, c: Chain, a: nat, k: nat, overlap: bool, n: nat)
    requires Small(c, n)
    ensures var r := PutBytes(file, c, a, k, overlap); r.Loaded? ==> Small(r.chain, n + k)
    decreases k
  {
    if k > 0 && file != [] {
      var r := PutByte(c.cur.cells, a, file[0], overlap);
      PutSmall(c.cur.cells, a, file[0], overlap);
      if r.Full? {
        PutBytesSmall(file[1..], c.WithCells(r.cells), a + 1, k - 1, overlap, n + 1);
      }
    }
  }

  /** No loader stores more cells in a map than it reads bytes. */
  lemma {:induction false} LoadBinSmall(file: seq<Byte>, c: Chain, overlap: bool, n: nat)
    requires Small(c, n)
    ensures var r := LoadBin(file, c, overlap); r.Loaded? ==> Small(r.chain, n + |file| - |r.rest|)
    decreases |file|
  {
    if |file| >= 4 {
      var a, k, rest := Word(file[0], file[1]), Word(file[2], file[3]), file[4..];
      if a == 65535 && k > 1 {
        if k == 3 && |rest| >= 3 {
          LoadBinSmall(rest[3..], c.Named().NewMap(Banks(Some(rest[1]), Some(rest[2]))), overlap, n);
        }
      } else if k != 0 {
        var r := PutBytes(rest, c.Named(), a, k, overlap);
        PutBytesSmall(rest, c.Named(), a, k, overlap, n);
        if r.Loaded? {
          LoadBinSmall(r.rest, r.chain, overlap, n + k);
        }
      }
    }
  }

  lemma DigestSmall(h: Hex, d: nat, c: Chain, overlap: bool, n: nat)
    requires Small(c, n)
    ensures var s := Digest(h, d, c, overlap); s.Go? ==> Small(s.chain, n + 1)
  {
    if h.phase.GetBlock? && h.i == 1 {
      PutSmall(c.cur.cells, h.address, Shift(h.abyte, h.i, d) % 256, overlap);
    }
  }

  lemma {:induction false} LoadHexSmall(file: seq<Byte>, h: Hex, c: Chain, overlap: bool, n: nat)
    requires Small(c, n)
    ensures var r := LoadHex(file, h, c, overlap); r.Loaded? ==> Small(r.chain, n + |file| - |r.rest|)
    decreases |file|
  {
    hide Digest;
    if file != [] {
      var d := Value(file[0]);
      if d.None? {
        LoadHexSmall(file[1..], h, c.Named(), overlap, n);
      } else {
        var s := Digest(h, d.value, c.Named(), overlap);
        DigestSmall(h, d.value, c.Named(), overlap, n);
        if s.Go? {
          LoadHexSmall(file[1..], s.h, s.chain, overlap, n + 1);
        }
      }
    }
  }

  lemma {:induction false} LoadFileSmall(file: seq<Byte>, c: Chain, overlap: bool, found: bool, n: nat)
    requires Small(c, n)
    ensures var r := LoadFile(file, c, overlap, found);
            r.Loaded? ==> Small(r.chain, n + if |file| >= 8 then |file| - 8 else 0)
    decreases |file|
  {
    hide LoadBin, LoadHex, Scan;
    var s := Scan(file, 0, true, true);
    if s.Found? {
      LoadBinSmall(s.rest, c, overlap, n);
      LoadHexSmall(s.rest, Hex0, c, overlap, n);
      var r := if s.bin then LoadBin(s.rest, c, overlap)
               else if s.hex then LoadHex(s.rest, Hex0, c, overlap)
               else Loaded(c, s.rest);
      if r.Loaded? {
        LoadFileSmall(r.rest, r.chain, overlap, true, n + |s.rest| - |r.rest|);
      }
    }
  }

  lemma {:induction false} Counted(m: Cells, n: nat)
    requires n <= 65536 && forall a :: 0 <= a < n ==> a in m
    ensures |m| >= n
    decreases n
  {
    if n > 0 {
      var rest: Cells := map x | x in m && x != n - 1 :: m[x];
      assert m.Keys == rest.Keys + {n - 1};
      Counted(rest, n - 1);
    }
  }

  lemma {:induction false} NoSignature(file: seq<Byte>, i: nat, bin: bool, hex: bool)
    requires forall k :: 0 <= k < |file| ==> file[k] != 83
    requires i <= 1
    ensures Scan(file, i, bin, hex).NotFound?
    decreases |file|
  {
    if file != [] {
      if i == 0 && file[0] == 66 {
        NoSignature(file[1..], 1, true && bin, true && hex);
      } else {
        NoSignature(file[1..], 0, true, true);
      }
    }
  }

  lemma {:induction false} HexBytesPlain(bs: seq<Byte>, k: nat)
    ensures forall i :: 0 <= i < |HexBytes(bs, k)| ==> HexBytes(bs, k)[i] != 83
    decreases |bs|
  {
    if bs != [] {
      HexBytesPlain(bs[1..], k + 1);
    }
  }

  function Whole(m: Cells): seq<Byte>
    requires !HasFree(m)
  {
    seq(65536, i requires 0 <= i < 65536 => m[i])
  }

  lemma {:induction false} FullBlocks(m: Cells)
    requires !HasFree(m)
    ensures Blocks(m, 0) == [Data(0, Whole(m))]
  {
    assert 0 in m;
    var e := FirstFree(m, 0);
    assert FirstUsed(m, 0) == 0 && e == 65536;
    assert Span(m, 0, 65536) == Whole(m);
    assert Blocks(m, 65536) == [];
  }

  lemma {:induction false} FullFile(m: Cells)
    requires !HasFree(m)
    ensures Save(m, Binary) == Signature(Binary) + (Word2(0) + (Word2(65536) + (Whole(m) + Ending(Binary))))
  {
    hide Signature, Blocks, Whole, Word2;
    FullBlocks(m);
    var bytes := Whole(m);
    assert |bytes| == 65536 by { hide *; WholeLength(m); }
    assert RenderBlocks(Binary, [Data(0, bytes)]) == RenderBlock(Binary, Data(0, bytes)) + [];
  }

  lemma FullBinary(m: Cells, overlap: bool)
    requires !HasFree(m)
    ensures var r := Load(Save(m, Binary), Blank, overlap); r.Loaded? ==> Small(r.chain, 65532)
  {
    hide LoadBin, LoadFile, Scan, Signature, Blocks, Whole;
    FullBlocks(m);
    var bytes := Whole(m);
    assert |bytes| == 65536 by { hide *; WholeLength(m); }
    var tail := bytes + Ending(Binary);
    var body := Word2(0) + (Word2(65536) + tail);
    var file := Save(m, Binary);
    FullFile(m);
    ScanSignature(Binary, body);
    assert body == Ending(Binary) + tail;
    BinEnd(tail, Start(Blank), overlap);
    var c := Start(Blank).Named();
    LoadFileStep(file, body, tail, Start(Blank), c, overlap);
    LoadFileSmall(tail, c, overlap, true, 0);
  }

  lemma WholeLength(m: Cells)
    requires !HasFree(m)
    ensures |Whole(m)| == 65536
  {
  }

  lemma {:induction false} LoadFileStep(file: seq<Byte>, body: seq<Byte>, tail: seq<Byte>, c: Chain, c': Chain, overlap: bool)
    requires Scan(file, 0, true, true) == Found(body, true, false)
    requires LoadBin(body, c, overlap) == Loaded(c', tail)
    ensures LoadFile(file, c, overlap, false) == LoadFile(tail, c', overlap, true)
  {
  }

  lemma FullHexa(m: Cells, overlap: bool)
    requires !HasFree(m)
    ensures Load(Save(m, Hexa), Blank, overlap) == Loaded(Start(Blank).Named(), [])
  {
    hide LoadHex, Scan, Signature, Blocks, Whole, HexBytes, Hex4;
    FullBlocks(m);
    var bytes := Whole(m);
    WholeLength(m);
    var tail := [NL] + (HexBytes(bytes, 0) + Ending(Hexa));
    var body := Hex4(0) + ([COMMA] + (Hex4(65536) + tail));
    var file := Save(m, Hexa);
    assert RenderBlocks(Hexa, [Data(0, bytes)]) == RenderBlock(Hexa, Data(0, bytes)) + [];
    assert file == Signature(Hexa) + ([NL] + body);
    ScanSignature(Hexa, [NL] + body);
    var c := Start(Blank).Named();
    HexNamed([NL] + body, Hex0, Start(Blank), overlap);
    HexSkip(NL, body, Hex0, c, overlap);
    assert Hex4(65536) == Hex4(0) by { Hex4Of64K(); }
    HexHeader(0, 0, tail, Hex0, c, overlap);
    HexBytesPlain(bytes, 0);
    EndingPlain();
    assert forall k :: 0 <= k < |tail| ==> tail[k] != 83;
    NoSignature(tail, 0, true, true);
    assert LoadFile(tail, c, overlap, true) == Loaded(c, []);
  }

  lemma Hex4Of64K()
    ensures Hex4(65536) == Hex4(0)
  {
  }

  lemma EndingPlain()
    ensures forall i :: 0 <= i < |Ending(Hexa)| ==> Ending(Hexa)[i] != 83
  {
  }

  /** The map comes back, alone, with just the cells and bytes it had. */
  predicate Restores(r: Outcome, m: Cells) { r == Loaded(Chain([], Node(m, Unknown), Unknown), []) }

  /** Saving and loading restores a map exactly when it has a free cell: the length of a full map is
    * written as 0, which ends the section. */
  lemma RoundTrip(m: Cells, f: Format, overlap: bool)
    ensures Restores(Load(Save(m, f), Blank, overlap), m) <==> HasFree(m)
  {
    if HasFree(m) {
      SaveLoads(m, f, Blank, overlap);
      assert Blank.cells + m == m;
    } else {
      Counted(m, 65536);
      if f.Binary? {
        FullBinary(m, overlap);
      } else {
        FullHexa(m, overlap);
      }
    }
  }

  // ----- several files, one map -----

  datatype Merged = Merged(head: Node) | Refused(error: Error)

  /** Files loaded one after the other into the same head map. */
  function LoadAll(files: seq<seq<Byte>>, head: Node, overlap: bool): Merged
    decreases |files|
  {
    if files == [] then Merged(head) else
    match Load(files[0], head, overlap)
    case Failed(e) => Refused(e)
    case Loaded(c, _) => LoadAll(files[1..], c.Maps()[0], overlap)
  }

  datatype Saving = Saving(cells: Cells, format: Format)

  function SaveAll(ss: seq<Saving>): seq<seq<Byte>> { seq(|ss|, i requires 0 <= i < |ss| => Save(ss[i].cells, ss[i].format)) }

  function Union(ss: seq<Saving>): Cells
    decreases |ss|
  {
    if ss == [] then map[] else ss[0].cells + Union(ss[1..])
  }

  predicate PairwiseApart(ss: seq<Saving>) {
    forall i, j :: 0 <= i < j < |ss| ==> Apart(ss[i].cells, ss[j].cells)
  }

  predicate AllApart(ss: seq<Saving>, m: Cells) { forall i :: 0 <= i < |ss| ==> Apart(ss[i].cells, m) }

  lemma {:induction false} InUnion(ss: seq<Saving>, x: int)
    ensures x in Union(ss) <==> exists i :: 0 <= i < |ss| && x in ss[i].cells
    decreases |ss|
  {
    if ss != [] {
      InUnion(ss[1..], x);
      if x in ss[0].cells {
      } else if x in Union(ss[1..]) {
        var i :| 0 <= i < |ss[1..]| && x in ss[1..][i].cells;
        assert x in ss[i + 1].cells;
      } else {
        forall i | 0 <= i < |ss| ensures x !in ss[i].cells {
          if i > 0 {
            assert ss[i] == ss[1..][i - 1];
          }
        }
      }
    }
  }

  lemma ApartMore(ss: seq<Saving>, m: Cells)
    requires ss != []
    ensures Apart(ss[0].cells, m) ==>
              (PairwiseApart(ss) && AllApart(ss, m) <==>
               PairwiseApart(ss[1..]) && AllApart(ss[1..], m + ss[0].cells))
  {
    var tail, first := ss[1..], ss[0].cells;
    assert forall i :: 0 <= i < |tail| ==> tail[i] == ss[i + 1];
    if Apart(first, m) {
      if PairwiseApart(ss) && AllApart(ss, m) {
        forall i | 0 <= i < |tail| ensures Apart(tail[i].cells, m + first) {
          assert Apart(ss[0].cells, ss[i + 1].cells) && Apart(ss[i + 1].cells, m);
        }
      }
      if PairwiseApart(tail) && AllApart(tail, m + first) {
        forall i | 0 <= i < |ss| ensures Apart(ss[i].cells, m) {
          if i > 0 { assert Apart(tail[i - 1].cells, m + first); }
        }
        forall i, j | 0 <= i < j < |ss| ensures Apart(ss[i].cells, ss[j].cells) {
          if i == 0 {
            assert Apart(tail[j - 1].cells, m + first);
          } else {
            assert Apart(tail[i - 1].cells, tail[j - 1].cells);
          }
        }
      }
    }
  }

  lemma NonePairwise()
    ensures PairwiseApart([])
  {
  }

  lemma {:induction false} LoadAllSaves(ss: seq<Saving>, head: Node)
    requires forall i :: 0 <= i < |ss| ==> HasFree(ss[i].cells)
    ensures var r := LoadAll(SaveAll(ss), head, false);
            if PairwiseApart(ss) && AllApart(ss, head.cells) then r.Merged? && r.head.cells == head.cells + Union(ss)
            else r == Refused(Overlap)
    decreases |ss|
  {
    hide Load, Save, HasFree, PairwiseApart, Apart;
    if ss == [] {
      assert PairwiseApart(ss) by { NonePairwise(); }
      assert SaveAll(ss) == [] && head.cells + Union(ss) == head.cells;
    } else {
      var first, tail := ss[0], ss[1..];
      SaveLoads(first.cells, first.format, head, false);
      assert SaveAll(ss)[0] == Save(first.cells, first.format);
      assert SaveAll(ss)[1..] == SaveAll(tail);
      ApartMore(ss, head.cells);
      if Apart(first.cells, head.cells) {
        var head' := Node(head.cells + first.cells, Unknown);
        LoadAllSaves(tail, head');
        assert (head.cells + first.cells) + Union(tail) == head.cells + (first.cells + Union(tail));
      } else {
        assert !AllApart(ss, head.cells);
      }
    }
  }

  /** Without permission to overlap, several saved maps load into an empty one exactly when no cell is
    * in two of them, and then give their union, in which every cell has the byte of the map it came from. */
  lemma {:induction false} SeveralSaves(ss: seq<Saving>)
    requires forall i :: 0 <= i < |ss| ==> HasFree(ss[i].cells)
    ensures var r := LoadAll(SaveAll(ss), Blank, false);
            && (r.Merged? <==> PairwiseApart(ss))
            && (r.Refused? ==> r.error == Overlap)
            && (r.Merged? ==> r.head.cells == Union(ss))
            && (r.Merged? ==> forall i, x :: 0 <= i < |ss| && x in ss[i].cells ==>
                                x in Union(ss) && Union(ss)[x] == ss[i].cells[x])
  {
    hide PairwiseApart, LoadAll, Apart;
    LoadAllSaves(ss, Blank);
    assert AllApart(ss, map[]) by { AllApartNone(ss); }
    assert map[] + Union(ss) == Union(ss);
    if PairwiseApart(ss) {
      forall i, x | 0 <= i < |ss| && x in ss[i].cells
        ensures x in Union(ss) && Union(ss)[x] == ss[i].cells[x]
      {
        UnionAt(ss, i, x);
      }
    }
  }

  lemma AllApartNone(ss: seq<Saving>)
    ensures AllApart(ss, map[])
  {
  }

  lemma {:induction false} UnionAt(ss: seq<Saving>, i: nat, x: int)
    requires PairwiseApart(ss) && i < |ss| && x in ss[i].cells
    ensures x in Union(ss) && Union(ss)[x] == ss[i].cells[x]
    decreases |ss|
  {
    var tail := ss[1..];
    assert forall k :: 0 <= k < |tail| ==> tail[k] == ss[k + 1];
    if i == 0 {
      InUnion(tail, x);
      forall k | 0 <= k < |tail| ensures x !in tail[k].cells {
        assert Apart(ss[0].cells, ss[k + 1].cells);
      }
    } else {
      assert PairwiseApart(tail) by {
        forall k, l | 0 <= k < l < |tail| ensures Apart(tail[k].cells, tail[l].cells) {
          assert Apart(ss[k + 1].cells, ss[l + 1].cells);
        }
      }
      UnionAt(tail, i - 1, x);
    }
  }
}
