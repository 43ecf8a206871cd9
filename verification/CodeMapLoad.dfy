/** Loading a file into a map in place: the variables of the load function are the fields of the loader. */
module CodeMapLoad {
  import opened Options
  import opened CodeMap
  import opened CodeMapRun

  ghost function Everything(nodes: seq<Map>): (r: set<object>)
    ensures forall n :: n in nodes ==> n in r && n.code in r && n.inUse in r
  {
    (set n: Map | n in nodes :: n as object) + (set n: Map | n in nodes :: n.code as object) +
    (set n: Map | n in nodes :: n.inUse as object)
  }

  /** Maps linked in order, every one with arrays of its own. */
  ghost predicate Linked(nodes: seq<Map>)
    reads Everything(nodes)
  {
    && (forall i :: 0 <= i < |nodes| ==> nodes[i].Sized())
    && (forall i, j :: 0 <= i < j < |nodes| ==> Different(nodes[i], nodes[j]))
    && (forall i :: 0 <= i < |nodes| - 1 ==> nodes[i].next == nodes[i + 1])
  }

  ghost predicate Different(a: Map, b: Map) { a != b && a.code != b.code && a.inUse != b.inUse }

  lemma LinkMore(ns: seq<Map>, n: Map)
    requires LinkedTo(ns, n) && n.Sized()
    requires forall i :: 0 <= i < |ns| ==> Different(ns[i], n)
    ensures Linked(ns + [n])
  {
    var all := ns + [n];
    forall i, j | 0 <= i < j < |all| ensures Different(all[i], all[j]) {
      if j == |ns| { assert Different(ns[i], n); } else { assert Different(ns[i], ns[j]); }
    }
  }

  lemma LastIsDifferent(ns: seq<Map>)
    requires ns != [] && Linked(ns)
    ensures forall i :: 0 <= i < |ns| - 1 ==> ns[i] != ns[|ns| - 1]
  {
    assert forall i :: 0 <= i < |ns| - 1 ==> Different(ns[i], ns[|ns| - 1]);
  }

  lemma NewIsDifferent(ns: seq<Map>, n: Map)
    requires forall m :: m in ns ==> m != n && m.code != n.code && m.inUse != n.inUse
    ensures forall i :: 0 <= i < |ns| ==> Different(ns[i], n)
  {
    assert forall i :: 0 <= i < |ns| ==> ns[i] in ns;
  }

  /** Linked in order, and the last to n. */
  ghost predicate LinkedTo(ns: seq<Map>, n: Map)
    reads Everything(ns)
  {
    ns != [] && Linked(ns) && ns[|ns| - 1].next == n
  }

  lemma {:induction false} NothingLeft(c: Chain, overlap: bool)
    ensures LoadFile([], c, overlap, true) == Loaded(c, [])
  {
  }

  class Loader {
    const infile: seq<Byte>
    var pos: nat
    var eof: bool
    var cur: Map
    var rombank: Option<Byte>
    var rambank: Option<Byte>
    ghost var nodes: seq<Map>
    ghost var done: seq<Node>

    ghost function Footprint(): set<object>
      reads this
    {
      Everything(nodes)
    }

    ghost predicate Valid()
      reads this, Footprint()
    {
      && pos <= |infile|
      && (eof ==> pos == |infile|)
      && nodes != [] && nodes[|nodes| - 1] == cur
      && Linked(nodes)
      && |done| == |nodes| - 1
      && (forall i :: 0 <= i < |done| ==> nodes[i].View() == done[i])
    }

    ghost function Rest(): seq<Byte>
      reads this
      requires pos <= |infile|
    {
      infile[pos..]
    }

    ghost function State(): Chain
      reads this, Footprint()
      requires Valid()
    {
      Chain(done, cur.View(), Banks(rombank, rambank))
    }

    constructor (file: seq<Byte>, head: Map)
      requires head.Sized()
      ensures Valid() && infile == file && pos == 0 && !eof && nodes == [head] && State() == Start(head.View())
    {
      infile, pos, eof, cur, rombank, rambank := file, 0, false, head, None, None;
      nodes, done := [head], [];
    }

    /** The next byte, or -1 at the end of the file. */
    method Getc() returns (c: int)
      requires Valid()
      modifies this`pos, this`eof
      ensures Valid() && State() == old(State())
      ensures if old(Rest()) == [] then c == -1 && eof && Rest() == []
              else c == old(Rest())[0] && Rest() == old(Rest())[1..] && eof == old(eof)
    {
      if pos == |infile| {
        c, eof := -1, true;
      } else {
        c := infile[pos];
        pos := pos + 1;
      }
    }

    /** The current map takes the banks. */
    method Name()
      requires Valid()
      modifies cur`rombank, cur`rambank
      ensures Valid() && State() == old(State()).Named() && unchanged(this)
    {
      cur.rombank, cur.rambank := rombank, rambank;
    }

    method Put(address: nat, b: Byte, acceptOverlap: bool) returns (err: Option<Error>)
      requires Valid()
      modifies cur.code, cur.inUse
      ensures Valid() && unchanged(this)
      ensures var r := PutByte(old(State()).cur.cells, address, b, acceptOverlap);
              if r.Clash? then err == Some(r.error) else err == None && State() == old(State()).WithCells(r.cells)
    {
      if address >= 65536 { return Some(OutOfMemory); }
      if cur.inUse[address] && !acceptOverlap { return Some(Overlap); }
      cur.code[address] := b;
      cur.inUse[address] := true;
      err := None;
      assert cur.Contents() == old(cur.Contents())[address := b];
    }

    method Append(n: Map)
      requires Valid() && n.Sized() && n.View() == Blank && n.next == null
      requires forall m :: m in nodes ==> m != n && m.code != n.code && m.inUse != n.inUse
      modifies this`cur, this`nodes, this`done, cur`next
      ensures Valid() && State() == old(State()).NewMap(Banks(rombank, rambank))
      ensures nodes == old(nodes) + [n] && cur == n && n.next == null
    {
      hide Different, Everything;
      ghost var before := nodes;
      LastIsDifferent(before);
      NewIsDifferent(before, n);
      cur.next := n;
      LinkMore(before, n);
      done := done + [cur.View()];
      cur := n;
      nodes := nodes + [n];
      assert forall i :: 0 <= i < |before| ==> nodes[i] == before[i];
    }

    /** A new map, linked behind the current one. */
    method NewMap()
      requires Valid()
      modifies this`cur, this`nodes, this`done, cur`next
      ensures Valid() && State() == old(State()).NewMap(Banks(rombank, rambank))
      ensures nodes == old(nodes) + [cur] && cur.next == null
      ensures fresh(cur) && fresh(cur.code) && fresh(cur.inUse)
    {
      var newmap := new Map();
      Append(newmap);
    }

    /** The maps are those of before and new ones behind them. */
    twostate predicate Grew()
      reads this, cur
    {
      && old(nodes) <= nodes
      && (forall i :: |old(nodes)| <= i < |nodes| ==>
            fresh(nodes[i]) && fresh(nodes[i].code) && fresh(nodes[i].inUse))
      && if nodes == old(nodes) then cur == old(cur) && cur.next == old(cur.next)
         else fresh(cur) && fresh(cur.code) && fresh(cur.inUse) && cur.next == null
    }

    /** The bytes of a data block. */
    method Transfer(address: nat, length: nat, acceptOverlap: bool) returns (err: Option<Error>)
      requires Valid()
      modifies this`pos, this`eof, cur.code, cur.inUse
      ensures Valid()
      ensures var r := PutBytes(old(Rest()), old(State()), address, length, acceptOverlap);
              if r.Failed? then err == Some(r.error)
              else err == None && State() == r.chain && Rest() == r.rest && eof == old(eof)
    {
      var a: nat, n: nat := address, length;
      while n > 0
        invariant Valid() && n <= length && eof == old(eof)
        invariant PutBytes(Rest(), State(), a, n, acceptOverlap) ==
                  PutBytes(old(Rest()), old(State()), address, length, acceptOverlap)
      {
        var achar := Getc();
        if achar == -1 { return Some(UnexpectedEof); }
        err := Put(a, achar, acceptOverlap);
        if err.Some? { return; }
        a := a + 1;
        n := n - 1;
      }
      err := None;
    }

    method SetRom(b: Byte)
      requires Valid()
      modifies this`rombank
      ensures Valid() && State() == old(State()).(banks := Banks(Some(b), rambank)) && rombank == Some(b)
    {
      rombank := Some(b);
    }

    method SetRam(b: Byte)
      requires Valid()
      modifies this`rambank
      ensures Valid() && State() == old(State()).(banks := Banks(rombank, Some(b))) && rambank == Some(b)
    {
      rambank := Some(b);
    }

    /** An announcement of that many bytes. */
    method Announcement(length: nat) returns (err: Option<Error>)
      requires Valid()
      modifies this, cur`next
      ensures Valid() && Grew()
      ensures err == BadAnnounce(length, old(Rest()))
      ensures err == None ==>
                && eof == old(eof) && Rest() == old(Rest())[3..]
                && State() == old(State()).NewMap(Banks(Some(old(Rest())[1]), Some(old(Rest())[2])))
    {
      hide Valid, Linked, Everything, CodeMapRun.Map.View;
      if length != 3 { return Some(BadMeta); }
      var achar := Getc();
      if achar == -1 { return Some(UnexpectedEof); }
      if achar != 0 { return Some(BadMeta); }
      achar := Getc();
      if achar == -1 { return Some(UnexpectedEof); }
      SetRom(achar);
      achar := Getc();
      if achar == -1 { return Some(UnexpectedEof); }
      SetRam(achar);
      NewMap();
      err := None;
    }

    /** The outcome of a load so far. */
    ghost predicate Ended(r: Outcome, err: Option<Error>)
      requires Valid()
      reads this, Footprint()
    {
      if r.Failed? then err == Some(r.error) else err == None && State() == r.chain && Rest() == r.rest
    }

    /** The address and length of a block; the address is -1 at the end of the file. */
    method Header() returns (ok: bool, address: int, length: int)
      requires Valid()
      modifies this`pos, this`eof
      ensures Valid() && State() == old(State())
      ensures var f := old(Rest());
              if f == [] then address == -1 && eof && Rest() == []
              else if |f| < 4 then address >= 0 && !ok
              else ok && address == Word(f[0], f[1]) && length == Word(f[2], f[3]) && Rest() == f[4..] && eof == old(eof)
    {
      hide Valid, Linked, Everything, CodeMapRun.Map.View;
      var c0 := Getc();
      if c0 == -1 { return false, -1, 0; }
      var c1 := Getc();
      var c2 := Getc();
      var c3 := Getc();
      ok := c1 != -1 && c2 != -1 && c3 != -1;
      address, length := if ok then Word(c0, c1) else 0, if ok then Word(c2, c3) else 0;
    }

    /** One block of a binary section. */
    method Block(acceptOverlap: bool) returns (err: Option<Error>, more: bool)
      requires Valid()
      modifies this, cur, cur.code, cur.inUse
      ensures Valid() && Grew()
      ensures var r := LoadBin(old(Rest()), old(State()), acceptOverlap);
              if more then err == None && pos > old(pos) && r == LoadBin(Rest(), State(), acceptOverlap)
              else Ended(r, err)
    {
      hide Valid, Linked, Everything, CodeMapRun.Map.View, PutBytes, BadAnnounce;
      Name();
      var ok, address, length := Header();
      if address == -1 { return None, false; }
      if !ok { return Some(UnexpectedEof), false; }
      if length == 0 { return None, false; }
      if address == 65535 && length > 1 {
        err := Announcement(length);
      } else {
        err := Transfer(address, length, acceptOverlap);
      }
      more := err == None;
    }

    method LoadBinary(acceptOverlap: bool) returns (err: Option<Error>)
      requires Valid()
      modifies this, cur, cur.code, cur.inUse
      ensures Valid() && Grew() && Ended(LoadBin(old(Rest()), old(State()), acceptOverlap), err)
    {
      hide Linked, Everything, CodeMapRun.Map.View, LoadBin;
      var more := true;
      err := None;
      while more
        invariant Valid() && Grew()
        invariant more ==> LoadBin(Rest(), State(), acceptOverlap) == LoadBin(old(Rest()), old(State()), acceptOverlap)
        invariant !more ==> Ended(LoadBin(old(Rest()), old(State()), acceptOverlap), err)
        decreases if more then |infile| + 1 - pos else 0
      {
        err, more := Block(acceptOverlap);
      }
    }

    method NextSignature() returns (found: bool, isBin: bool, isHex: bool)
      requires Valid()
      modifies this`pos, this`eof
      ensures Valid() && State() == old(State())
      ensures var s := Scan(old(Rest()), 0, true, true);
              if s.NotFound? then !found && eof else found && isBin == s.bin && isHex == s.hex && Rest() == s.rest && eof == old(eof)
    {
      var i := 0;
      isBin, isHex := true, true;
      while i < 8
        invariant Valid() && State() == old(State()) && eof == old(eof)
        invariant 0 <= i <= 8
        invariant Scan(Rest(), i, isBin, isHex) == Scan(old(Rest()), 0, true, true)
        decreases |infile| - pos
      {
        var achar := Getc();
        if achar == -1 { return false, false, false; }
        if achar != Signature(Binary)[i] && achar != Signature(Hexa)[i] {
          i, isBin, isHex := 0, true, true;
        } else {
          isBin := isBin && achar == Signature(Binary)[i];
          isHex := isHex && achar == Signature(Hexa)[i];
          i := i + 1;
        }
      }
      found := true;
    }

    /** The effect of one hexadecimal digit. */
    method Digit(h: Hex, d: nat, acceptOverlap: bool) returns (h': Hex, err: Option<Error>, end: bool)
      requires Valid()
      modifies this`rombank, this`rambank, this`cur, this`nodes, this`done, cur, cur.code, cur.inUse
      ensures Valid() && Grew()
      ensures match Digest(h, d, old(State()), acceptOverlap)
              case Go(g, c) => err == None && !end && h' == g && State() == c
              case Finished => err == None && end && State() == old(State())
              case Stopped(e) => err == Some(e)
    {
      hide Valid, Linked, Everything, CodeMapRun.Map.View, PutByte;
      h', err, end := h, None, false;
      match h.phase {
        case GetAddress =>
          h' := h'.(address := Shift(h.address, h.i, d), i := h.i + 1);
          if h'.i == 4 { h' := h'.(i := 0, phase := GetLength); }
        case GetLength =>
          h' := h'.(length := Shift(h.length, h.i, d), i := h.i + 1);
          if h'.i == 4 {
            h' := h'.(i := 0);
            if h'.length == 0 { return h', None, true; }
            h' := h'.(phase := if h'.address == 65535 && h'.length > 1 then MetaType else GetBlock);
          }
        case MetaType =>
          if h.length != 3 { return h', Some(BadMeta), false; }
          h' := h'.(abyte := Shift(h.abyte, h.i, d), i := h.i + 1);
          if h'.i == 2 {
            if h'.abyte != 0 { return h', Some(BadMeta), false; }
            h' := h'.(i := 0, phase := MetaRom);
          }
        case MetaRom =>
          h' := h'.(abyte := Shift(h.abyte, h.i, d), i := h.i + 1);
          if h'.i == 2 {
            SetRom(h'.abyte % 256);
            h' := h'.(i := 0, phase := MetaRam);
          }
        case MetaRam =>
          h' := h'.(abyte := Shift(h.abyte, h.i, d), i := h.i + 1);
          if h'.i == 2 {
            SetRam(h'.abyte % 256);
            NewMap();
            h' := h'.(i := 0, phase := GetAddress);
          }
        case GetBlock =>
          h' := h'.(abyte := Shift(h.abyte, h.i, d), i := h.i + 1);
          if h'.i == 2 {
            err := Put(h.address, h'.abyte % 256, acceptOverlap);
            if err.Some? { return; }
            h' := h'.(i := 0, length := if h.length > 0 then h.length - 1 else 0,
                      phase := if h.length == 1 then GetAddress else GetBlock, address := h.address + 1);
          }
      }
    }

    /** One character of a hexadecimal section. */
    method Character(h: Hex, acceptOverlap: bool) returns (h': Hex, err: Option<Error>, more: bool)
      requires Valid()
      modifies this, cur, cur.code, cur.inUse
      ensures Valid() && Grew()
      ensures var r := LoadHex(old(Rest()), h, old(State()), acceptOverlap);
              if more then err == None && pos > old(pos) && r == LoadHex(Rest(), h', State(), acceptOverlap)
              else Ended(r, err)
    {
      hide Valid, Linked, Everything, CodeMapRun.Map.View, Digest, Value;
      h' := h;
      Name();
      var achar := Getc();
      if achar == -1 { return h, Some(UnexpectedEof), false; }
      var d := Value(achar);
      if d == None { return h, None, true; }
      var end;
      h', err, end := Digit(h, d.value, acceptOverlap);
      more := err == None && !end;
    }

    method LoadHexa(acceptOverlap: bool) returns (err: Option<Error>)
      requires Valid()
      modifies this, cur, cur.code, cur.inUse
      ensures Valid() && Grew() && Ended(LoadHex(old(Rest()), Hex0, old(State()), acceptOverlap), err)
    {
      hide Linked, Everything, CodeMapRun.Map.View, LoadHex;
      var more, h := true, Hex0;
      err := None;
      while more
        invariant Valid() && Grew()
        invariant more ==>
                    LoadHex(Rest(), h, State(), acceptOverlap) == LoadHex(old(Rest()), Hex0, old(State()), acceptOverlap)
        invariant !more ==> Ended(LoadHex(old(Rest()), Hex0, old(State()), acceptOverlap), err)
        decreases if more then |infile| + 1 - pos else 0
      {
        h, err, more := Character(h, acceptOverlap);
      }
    }

    /** One section, after looking for its signature. */
    method Section(acceptOverlap: bool, foundOnce: bool) returns (err: Option<Error>, more: bool)
      requires Valid()
      modifies this, cur, cur.code, cur.inUse
      ensures Valid() && Grew()
      ensures var r := LoadFile(old(Rest()), old(State()), acceptOverlap, foundOnce);
              if more then err == None && pos > old(pos) && r == LoadFile(Rest(), State(), acceptOverlap, true)
              else if r.Failed? then err == Some(r.error) else err == None && State() == r.chain
    {
      hide Linked, Everything, CodeMapRun.Map.View, Scan, LoadBin, LoadHex;
      var found, isBin, isHex := NextSignature();
      if !found { return if foundOnce then None else Some(BadFile), false; }
      err := None;
      if isBin {
        err := LoadBinary(acceptOverlap);
      } else if isHex {
        err := LoadHexa(acceptOverlap);
      }
      more := err == None && !eof;
      if eof && err == None {
        assert Rest() == [];
        NothingLeft(State(), acceptOverlap);
      }
    }

    /** Sections to the end of the file. */
    method Run(acceptOverlap: bool) returns (err: Option<Error>)
      requires Valid()
      modifies this, cur, cur.code, cur.inUse
      ensures Valid() && Grew()
      ensures var r := LoadFile(old(Rest()), old(State()), acceptOverlap, false);
              if r.Failed? then err == Some(r.error) else err == None && State() == r.chain
    {
      hide Linked, Everything, CodeMapRun.Map.View, LoadFile;
      var more, foundOnce := true, false;
      err := None;
      while more
        invariant Valid() && Grew()
        invariant var r := LoadFile(old(Rest()), old(State()), acceptOverlap, false);
                  if more then r == LoadFile(Rest(), State(), acceptOverlap, foundOnce)
                  else if r.Failed? then err == Some(r.error) else err == None && State() == r.chain
        decreases if more then |infile| + 1 - pos else 0
      {
        err, more := Section(acceptOverlap, foundOnce);
        foundOnce := true;
      }
    }
  }

  /** Load a file into a map and, behind it, one new map for every announcement in the file. */
  method LoadMap(file: seq<Byte>, head: Map, acceptOverlap: bool) returns (err: Option<Error>, ghost nodes: seq<Map>)
    requires head.Sized()
    modifies head, head.code, head.inUse
    ensures Linked(nodes) && nodes != [] && nodes[0] == head
    ensures nodes[|nodes| - 1].next == if |nodes| == 1 then old(head.next) else null
    ensures var r := Load(file, old(head.View()), acceptOverlap);
            if r.Failed? then err == Some(r.error)
            else err == None && |nodes| == |r.chain.Maps()| &&
                 forall i :: 0 <= i < |nodes| ==> nodes[i].View() == r.chain.Maps()[i]
  {
    hide CodeMapRun.Map.View, LoadFile, Everything;
    var loader := new Loader(file, head);
    assert loader.Rest() == file;
    err := loader.Run(acceptOverlap);
    nodes := loader.nodes;
    assert nodes[..1] == [head];
    ghost var c := loader.State();
    assert c.Maps() == c.done + [c.cur];
  }
}
