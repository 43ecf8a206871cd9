/** Files embedded in files: loading the whole gives the maps of the parts, one after the other. */
module CodeMapEmbed {
  import opened Options
  import opened CodeMap
  import opened CodeMapRead
  import opened CodeMapOk

  function Else<T>(o: Option<T>, d: Option<T>): Option<T> { if o.Some? then o else d }

  /** Banks that nothing set so far come from outside. */
  function Or(b: Banks, k: Banks): Banks { Banks(Else(b.rom, k.rom), Else(b.ram, k.ram)) }

  function Under(n: Node, k: Banks): Node { n.(banks := Or(n.banks, k)) }

  function AllUnder(ns: seq<Node>, k: Banks): seq<Node> { seq(|ns|, i requires 0 <= i < |ns| => Under(ns[i], k)) }

  /** The chain as it is when the loader comes in with maps filled before and banks announced. */
  function Rebase(c: Chain, before: seq<Node>, k: Banks): Chain {
    Chain(before + AllUnder(c.done, k), Under(c.cur, k), Or(c.banks, k))
  }

  function Rebased(t: Tried, before: seq<Node>, k: Banks): Tried {
    if t.Done? then Done(Rebase(t.chain, before, k)) else t
  }

  lemma AllUnderSnoc(ns: seq<Node>, n: Node, k: Banks)
    ensures AllUnder(ns + [n], k) == AllUnder(ns, k) + [Under(n, k)]
  {
  }

  lemma RebaseNew(c: Chain, b: Banks, before: seq<Node>, k: Banks)
    requires b.rom.Some?
    ensures Rebase(c.NewMap(b), before, k) == Rebase(c, before, k).NewMap(Or(b, k))
  {
    AllUnderSnoc(c.done, c.cur, k);
    assert before + (AllUnder(c.done, k) + [Under(c.cur, k)]) == (before + AllUnder(c.done, k)) + [Under(c.cur, k)];
  }

  lemma StepRebase(f: Format, b: Block, c: Chain, overlap: bool, before: seq<Node>, k: Banks)
    ensures Step(f, b, Rebase(c, before, k), overlap) == Rebased(Step(f, b, c, overlap), before, k)
  {
    hide AllUnder, Fill;
    match b {
      case Data(a, bs) =>
      case Announce(rom, ram) =>
        var n := Banks(Some(rom), Some(ram));
        RebaseNew(c, n, before, k);
        RebaseNew(c.(cur := c.cur.(banks := c.banks.(rom := Some(rom)))), n, before, k);
    }
  }

  lemma {:induction false} BlocksRebase(f: Format, bs: seq<Block>, c: Chain, overlap: bool, before: seq<Node>, k: Banks)
    ensures RunBlocks(f, bs, Rebase(c, before, k), overlap) == Rebased(RunBlocks(f, bs, c, overlap), before, k)
    decreases |bs|
  {
    hide Step, AllUnder;
    assert Rebase(c, before, k).Named() == Rebase(c.Named(), before, k);
    if bs != [] {
      StepRebase(f, bs[0], c.Named(), overlap, before, k);
      var s := Step(f, bs[0], c.Named(), overlap);
      if s.Done? {
        BlocksRebase(f, bs[1..], s.chain, overlap, before, k);
      }
    }
  }

  lemma {:induction false} SectionsRebase(ss: seq<Section>, c: Chain, overlap: bool, before: seq<Node>, k: Banks)
    ensures RunSections(ss, Rebase(c, before, k), overlap) == Rebased(RunSections(ss, c, overlap), before, k)
    decreases |ss|
  {
    hide RunBlocks, Rebase;
    if ss != [] {
      BlocksRebase(ss[0].format, ss[0].blocks, c, overlap, before, k);
      var r := RunBlocks(ss[0].format, ss[0].blocks, c, overlap);
      if r.Done? {
        SectionsRebase(ss[1..], r.chain, overlap, before, k);
      }
    }
  }

  lemma {:induction false} SectionsAppend(ss: seq<Section>, tt: seq<Section>, c: Chain, overlap: bool)
    ensures RunSections(ss + tt, c, overlap) ==
            var r := RunSections(ss, c, overlap);
            if r.Done? then RunSections(tt, r.chain, overlap) else r
    decreases |ss|
  {
    hide RunBlocks;
    if ss == [] {
      assert ss + tt == tt;
    } else {
      assert (ss + tt)[1..] == ss[1..] + tt;
      var r := RunBlocks(ss[0].format, ss[0].blocks, c, overlap);
      if r.Done? {
        SectionsAppend(ss[1..], tt, r.chain, overlap);
      }
    }
  }

  lemma {:induction false} RenderAppend(ss: seq<Section>, tt: seq<Section>)
    ensures Render(ss + tt) == Render(ss) + Render(tt)
    decreases |ss|
  {
    hide RenderSection;
    if ss == [] {
      assert ss + tt == tt;
    } else {
      assert (ss + tt)[1..] == ss[1..] + tt;
      RenderAppend(ss[1..], tt);
    }
  }

  lemma {:induction false} BlocksEndNamed(f: Format, bs: seq<Block>, c: Chain, overlap: bool)
    ensures var r := RunBlocks(f, bs, c, overlap); r.Done? ==> IsNamed(r.chain)
    decreases |bs|
  {
    if bs != [] {
      var s := Step(f, bs[0], c.Named(), overlap);
      if s.Done? {
        BlocksEndNamed(f, bs[1..], s.chain, overlap);
      }
    }
  }

  lemma {:induction false} SectionsEndNamed(ss: seq<Section>, c: Chain, overlap: bool)
    ensures var r := RunSections(ss, c, overlap); r.Done? && ss != [] ==> IsNamed(r.chain)
    decreases |ss|
  {
    hide RunBlocks;
    if ss != [] {
      BlocksEndNamed(ss[0].format, ss[0].blocks, c, overlap);
      var r := RunBlocks(ss[0].format, ss[0].blocks, c, overlap);
      if r.Done? {
        SectionsEndNamed(ss[1..], r.chain, overlap);
      }
    }
  }

  lemma {:induction false} SectionsNamed(ss: seq<Section>, c: Chain, overlap: bool)
    requires ss != []
    ensures RunSections(ss, c, overlap) == RunSections(ss, c.Named(), overlap)
  {
    hide Step;
    var f, bs := ss[0].format, ss[0].blocks;
    assert c.Named().Named() == c.Named();
    assert RunBlocks(f, bs, c, overlap) == RunBlocks(f, bs, c.Named(), overlap);
  }

  /** The maps before an announcement: in hexadecimal the last of them takes the announced ROM bank. */
  function Before(ns: seq<Node>, f: Format, rom: Byte): seq<Node> {
    if f.Binary? || ns == [] then ns
    else ns[..|ns| - 1] + [ns[|ns| - 1].(banks := ns[|ns| - 1].banks.(rom := Some(rom)))]
  }

  lemma {:induction false} AnnounceRuns(f: Format, rom: Byte, ram: Byte, c: Chain, overlap: bool)
    requires IsNamed(c)
    ensures RunSections([Section(f, [Announce(rom, ram)])], c, overlap) ==
            Done(Rebase(Start(Blank), Before(c.Maps(), f, rom), Banks(Some(rom), Some(ram))).Named())
  {
    var k := Banks(Some(rom), Some(ram));
    var s := Section(f, [Announce(rom, ram)]);
    assert c.Named() == c;
    assert s.blocks[1..] == [] && [s][1..] == [];
    var pre := Before(c.Maps(), f, rom);
    assert c.Maps()[..|c.Maps()| - 1] == c.done;
    assert pre + AllUnder([], k) == pre;
    assert Step(f, Announce(rom, ram), c, overlap) == Done(Chain(pre, Blank, k));
    assert RunBlocks(f, s.blocks, c, overlap) == Done(Chain(pre, Blank, k).Named());
  }

  /** Loading a file with another embedded in it: the maps of the first, then those of the second, which
    * has the announced banks wherever it did not announce any itself. It fails as the first or the second does. */
  lemma {:induction false} EmbedLoads(base: seq<Section>, file: seq<Section>, rom: Byte, ram: Byte, f: Format, head: Node, overlap: bool)
    requires PlainSections(base) && PlainSections(file) && base != [] && file != []
    ensures var r1 := Load(Render(base), head, overlap);
            var r2 := Load(Render(file), Blank, overlap);
            var r := Load(Embed(Render(base), Render(file), rom, ram, f), head, overlap);
            if r1.Failed? then r == r1
            else if r2.Failed? then r == r2
            else
              && r.Loaded? && r.rest == []
              && r.chain.Maps() == Before(r1.chain.Maps(), f, rom) +
                                   AllUnder(r2.chain.Maps(), Banks(Some(rom), Some(ram)))
  {
    hide RunSections, Load, Render, RenderSection, AllUnder, Before, PlainSections, Start;
    var a := [Section(f, [Announce(rom, ram)])];
    assert PlainSections(base + a + file) by { PlainAppend(base, a[0], file); }
    assert Render(a) == RenderSection(a[0]) by { RenderOne(a[0]); }
    RenderAppend(base, a);
    RenderAppend(base + a, file);
    LoadIsRun(base + a + file, head, overlap);
    LoadIsRun(base, head, overlap);
    LoadIsRun(file, Blank, overlap);
    EmbedRuns(base, file, rom, ram, f, Start(head), overlap);
  }

  lemma RenderOne(s: Section)
    ensures Render([s]) == RenderSection(s)
  {
    assert Render([s]) == RenderSection(s) + [];
  }

  lemma PlainAppend(ss: seq<Section>, s: Section, tt: seq<Section>)
    requires PlainSections(ss) && PlainSections(tt) && s.blocks != [] && s.blocks[0].Announce? && |s.blocks| == 1
    ensures PlainSections(ss + [s] + tt)
  {
    var all := ss + [s] + tt;
    forall i | 0 <= i < |all| ensures AllPlain(all[i].blocks) {
      if i < |ss| {
        assert all[i] == ss[i];
      } else if i > |ss| {
        assert all[i] == tt[i - |ss| - 1];
      }
    }
  }

  lemma {:induction false} EmbedRuns(base: seq<Section>, file: seq<Section>, rom: Byte, ram: Byte, f: Format, c: Chain, overlap: bool)
    requires base != [] && file != []
    ensures var r1 := RunSections(base, c, overlap);
            var r2 := RunSections(file, Start(Blank), overlap);
            var r := RunSections(base + [Section(f, [Announce(rom, ram)])] + file, c, overlap);
            if r1.Broke? then r == r1
            else if r2.Broke? then r == r2
            else
              && r.Done?
              && r.chain.Maps() == Before(r1.chain.Maps(), f, rom) +
                                   AllUnder(r2.chain.Maps(), Banks(Some(rom), Some(ram)))
  {
    hide RunSections, Rebase, Before, Start, AllUnder;
    var k := Banks(Some(rom), Some(ram));
    var a := [Section(f, [Announce(rom, ram)])];
    SectionsAppend(base, a, c, overlap);
    SectionsAppend(base + a, file, c, overlap);
    SectionsEndNamed(base, c, overlap);
    var t1 := RunSections(base, c, overlap);
    if t1.Done? {
      AnnounceRuns(f, rom, ram, t1.chain, overlap);
      var pre := Before(t1.chain.Maps(), f, rom);
      SectionsNamed(file, Rebase(Start(Blank), pre, k), overlap);
      SectionsRebase(file, Start(Blank), overlap, pre, k);
      var t2 := RunSections(file, Start(Blank), overlap);
      if t2.Done? {
        RebaseMaps(t2.chain, pre, k);
      }
    }
  }

  lemma RebaseMaps(c: Chain, before: seq<Node>, k: Banks)
    ensures Rebase(c, before, k).Maps() == before + AllUnder(c.Maps(), k)
  {
    AllUnderSnoc(c.done, c.cur, k);
  }

  // ----- nested embedding -----

  /** A saved map, or a file with another one embedded after an announcement. */
  datatype Tree = Saved(cells: Cells, format: Format) | Embedded(base: Tree, file: Tree, rom: Byte, ram: Byte, format: Format)

  predicate AllFree(t: Tree) {
    match t
    case Saved(m, _) => HasFree(m)
    case Embedded(b, e, _, _, _) => AllFree(b) && AllFree(e)
  }

  function Bytes(t: Tree): seq<Byte> {
    match t
    case Saved(m, f) => Save(m, f)
    case Embedded(b, e, rom, ram, f) => Embed(Bytes(b), Bytes(e), rom, ram, f)
  }

  function SectionsOf(t: Tree): (ss: seq<Section>)
    ensures ss != []
  {
    match t
    case Saved(m, f) => [Section(f, Blocks(m, 0))]
    case Embedded(b, e, rom, ram, f) => SectionsOf(b) + [Section(f, [Announce(rom, ram)])] + SectionsOf(e)
  }

  lemma {:induction false} TreeBytes(t: Tree)
    requires AllFree(t)
    ensures Bytes(t) == Render(SectionsOf(t)) && PlainSections(SectionsOf(t))
  {
    hide RenderSection, Blocks, HasFree, AllPlain;
    match t {
      case Saved(m, f) =>
        BlocksPlain(m, 0);
        assert Render(SectionsOf(t)) == RenderSection(SectionsOf(t)[0]) + [];
      case Embedded(b, e, rom, ram, f) =>
        TreeBytes(b);
        TreeBytes(e);
        var a := [Section(f, [Announce(rom, ram)])];
        assert AllPlain(a[0].blocks) by { AnnouncePlain(rom, ram); }
        assert Render(a) == RenderSection(a[0]) + [];
        RenderAppend(SectionsOf(b), a);
        RenderAppend(SectionsOf(b) + a, SectionsOf(e));
    }
  }

  lemma AnnouncePlain(rom: Byte, ram: Byte)
    ensures AllPlain([Announce(rom, ram)])
  {
  }

  /** A map of a nested file with the announcement just before it. */
  datatype Part = Part(cells: Cells, banks: Banks, format: Format)

  /** The saved maps from left to right; the first is announced by nothing. */
  function Parts(t: Tree): (ps: seq<Part>)
    ensures ps != []
  {
    match t
    case Saved(m, _) => [Part(m, Unknown, Binary)]
    case Embedded(b, e, rom, ram, f) => Parts(b) + Announced(Parts(e), Banks(Some(rom), Some(ram)), f)
  }

  function Announced(ps: seq<Part>, k: Banks, f: Format): (qs: seq<Part>)
    ensures |qs| == |ps|
  {
    if ps == [] then [] else [Part(ps[0].cells, k, f)] + ps[1..]
  }

  /** Whether the announcement after part i is in hexadecimal. */
  predicate HexNext(ps: seq<Part>, i: nat) { i + 1 < |ps| && ps[i + 1].format.Hexa? }

  /** Map i: the banks announced for it, save that a hexadecimal announcement after it replaces its ROM bank. */
  function MapAt(ps: seq<Part>, i: nat): Node
    requires i < |ps|
  {
    Node(ps[i].cells, if HexNext(ps, i) then Banks(ps[i + 1].banks.rom, ps[i].banks.ram) else ps[i].banks)
  }

  function Flat(ps: seq<Part>): seq<Node> { seq(|ps|, i requires 0 <= i < |ps| => MapAt(ps, i)) }

  predicate AllSome(ps: seq<Part>) {
    ps != [] && ps[0] == Part(ps[0].cells, Unknown, Binary) &&
    forall i :: 0 < i < |ps| ==> ps[i].banks.rom.Some? && ps[i].banks.ram.Some?
  }

  lemma {:induction false} PartsSome(t: Tree)
    ensures AllSome(Parts(t))
  {
    if t.Embedded? {
      PartsSome(t.base);
      PartsSome(t.file);
      var p, q := Parts(t.base), Announced(Parts(t.file), Banks(Some(t.rom), Some(t.ram)), t.format);
      var all := p + q;
      forall i | 0 < i < |all| ensures all[i].banks.rom.Some? && all[i].banks.ram.Some? {
        if i > |p| {
          assert all[i] == Parts(t.file)[i - |p|];
        }
      }
    }
  }

  lemma FlatJoins(p: seq<Part>, e: seq<Part>, rom: Byte, ram: Byte, f: Format)
    requires AllSome(p) && AllSome(e)
    ensures var k := Banks(Some(rom), Some(ram));
            Flat(p + Announced(e, k, f)) == Before(Flat(p), f, rom) + AllUnder(Flat(e), k)
  {
    var k := Banks(Some(rom), Some(ram));
    var q := Announced(e, k, f);
    var l, r := Flat(p + q), Before(Flat(p), f, rom) + AllUnder(Flat(e), k);
    assert |l| == |r|;
    forall i | 0 <= i < |l| ensures l[i] == r[i] {
      if i < |p| {
        FlatFront(p, e, rom, ram, f, i);
      } else {
        FlatBack(p, e, rom, ram, f, i - |p|);
      }
    }
  }

  lemma FlatFront(p: seq<Part>, e: seq<Part>, rom: Byte, ram: Byte, f: Format, i: nat)
    requires e != [] && i < |p|
    ensures MapAt(p + Announced(e, Banks(Some(rom), Some(ram)), f), i) == Before(Flat(p), f, rom)[i]
  {
    var q := Announced(e, Banks(Some(rom), Some(ram)), f);
    var all := p + q;
    if i + 1 == |p| {
      assert all[i + 1] == q[0];
    } else {
      assert all[i + 1] == p[i + 1];
    }
  }

  lemma FlatBack(p: seq<Part>, e: seq<Part>, rom: Byte, ram: Byte, f: Format, j: nat)
    requires AllSome(e) && j < |e|
    ensures var k := Banks(Some(rom), Some(ram));
            MapAt(p + Announced(e, k, f), |p| + j) == Under(MapAt(e, j), k)
  {
    var k := Banks(Some(rom), Some(ram));
    var q := Announced(e, k, f);
    var all := p + q;
    assert all[|p| + j] == q[j];
    if j + 1 < |e| {
      assert all[|p| + j + 1] == q[j + 1] == e[j + 1];
    }
  }

  /** Files saved and embedded in any nesting, every section in either format, load as one chain: the
    * saved maps from left to right, each under the banks announced for it, except that a hexadecimal
    * announcement gives its ROM bank to the map before it too. */
  lemma {:induction false} NestedEmbeds(t: Tree, overlap: bool)
    requires AllFree(t)
    ensures var r := Load(Bytes(t), Blank, overlap);
            r.Loaded? && r.rest == [] && r.chain.Maps() == Flat(Parts(t))
  {
    hide Load, Save, Embed, HasFree, Parts, Render, Before, AllUnder;
    match t {
      case Saved(m, f) =>
        SaveLoads(m, f, Blank, overlap);
        assert Blank.cells + m == m;
        FlatOne(m, f);
      case Embedded(b, e, rom, ram, f) =>
        NestedEmbeds(b, overlap);
        NestedEmbeds(e, overlap);
        TreeBytes(b);
        TreeBytes(e);
        EmbedLoads(SectionsOf(b), SectionsOf(e), rom, ram, f, Blank, overlap);
        PartsSome(b);
        PartsSome(e);
        FlatJoins(Parts(b), Parts(e), rom, ram, f);
        PartsEmbedded(b, e, rom, ram, f);
    }
  }

  lemma {:induction false} FlatOne(m: Cells, f: Format)
    ensures Flat(Parts(Saved(m, f))) == [Node(m, Unknown)]
  {
  }

  lemma {:induction false} PartsEmbedded(b: Tree, e: Tree, rom: Byte, ram: Byte, f: Format)
    ensures Parts(Embedded(b, e, rom, ram, f)) == Parts(b) + Announced(Parts(e), Banks(Some(rom), Some(ram)), f)
  {
  }

  /** Every map after the first is loaded under the banks it was announced with exactly when no hexadecimal
    * announcement follows a map announced with another ROM bank. */
  lemma {:induction false} BanksAsAnnounced(t: Tree, overlap: bool)
    requires AllFree(t)
    ensures var ps := Parts(t);
            var r := Load(Bytes(t), Blank, overlap);
            r.Loaded? && |r.chain.Maps()| == |ps| &&
            ((forall i :: 0 < i < |ps| ==> r.chain.Maps()[i] == Node(ps[i].cells, ps[i].banks)) <==>
             forall i :: 0 < i < |ps| && HexNext(ps, i) ==> ps[i + 1].banks.rom == ps[i].banks.rom)
  {
    hide Load, Parts, Bytes;
    NestedEmbeds(t, overlap);
    var ps := Parts(t);
    var maps := Load(Bytes(t), Blank, overlap).chain.Maps();
    assert forall i :: 0 <= i < |ps| ==> maps[i] == MapAt(ps, i);
    if forall i :: 0 < i < |ps| ==> maps[i] == Node(ps[i].cells, ps[i].banks) {
      forall i | 0 < i < |ps| && HexNext(ps, i) ensures ps[i + 1].banks.rom == ps[i].banks.rom {
        assert maps[i] == MapAt(ps, i);
      }
    }
  }

  /** Two files embedded in turn, the second announced in hexadecimal: the first of them ends up in its bank. */
  lemma HexTakesTheBank(m: Cells, a: Cells, b: Cells, f: Format)
    requires HasFree(m) && HasFree(a) && HasFree(b)
    ensures var t := Embedded(Embedded(Saved(m, f), Saved(a, f), 1, 1, f), Saved(b, f), 2, 2, Hexa);
            var r := Load(Bytes(t), Blank, false);
            r.Loaded? && |r.chain.Maps()| == 3 && r.chain.Maps()[1] == Node(a, Banks(Some(2), Some(1)))
  {
    hide Load, Bytes;
    var inner := Embedded(Saved(m, f), Saved(a, f), 1, 1, f);
    var t := Embedded(inner, Saved(b, f), 2, 2, Hexa);
    assert AllFree(inner) && AllFree(Saved(b, f));
    NestedEmbeds(t, false);
    assert Parts(inner) == [Part(m, Unknown, Binary), Part(a, Banks(Some(1), Some(1)), f)];
    assert Parts(t) == Parts(inner) + [Part(b, Banks(Some(2), Some(2)), Hexa)];
  }
}
