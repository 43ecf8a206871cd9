/** The graphics device's registers and video memory, changed in place by the transfer and blit commands. */
module GfxRun {
  import opened Gfx

  datatype Status = Ok | BadSurface | BadOperator | BadBankId | BadTileIndex | BadCellCoordinates

  class Device {
    var pb1: Byte
    var pb3: Byte
    var pb5: Byte
    var pw1: nat
    var pw2: Address
    var pw3: Address
    var pw4: Address
    var pw5: nat
    var pw6: Address
    var waitForData: bool
    var status: Status
    /** Four banks of surface 0, then those of surface 1. */
    var tileBankSize: seq<Byte>
    const videoram0: array<Byte>
    const videoram1: array<Byte>

    ghost predicate Valid()
      reads `tileBankSize
    {
      && videoram0.Length == 65536 && videoram1.Length == 65536 && videoram0 != videoram1
      && |tileBankSize| == 8 && forall i :: 0 <= i < 8 ==> tileBankSize[i] < 4
    }

    ghost function Surfaces(): Video
      reads videoram0, videoram1
    {
      Video(videoram0[..], videoram1[..])
    }

    function BankSize(surface: nat, bank: nat): (n: nat)
      reads `tileBankSize
      requires Valid()
      ensures n <= 3
    {
      var i := surface % 2 * 4 + bank % 4;
      assert 0 <= i < 8;
      tileBankSize[i]
    }

    /** Width and height that the transfer or a blit uses: those of the source tile's bank, or register PW4. */
    function Sides(): (Side, Side)
      reads `tileBankSize, `pb1, `pw2, `pw4
      requires Valid()
    {
      if pb1 >= 128 then (TileSide(BankSize(pb1, pw2 / 256)), TileSide(BankSize(pb1, pw2 / 256)))
      else (SideOf(pw4 % 256), SideOf(pw4 / 256))
    }

    function Origin(): Address
      reads `tileBankSize, `pb1, `pw2
      requires Valid()
    {
      if pb1 >= 128 then TileAt(BankSize(pb1, pw2 / 256), pw2 / 256, pw2 % 256) else pw2
    }

    ghost function Transfer(): Stream
      reads `tileBankSize, `pb1, `pw1, `pw5, `pw6, `waitForData, videoram0, videoram1
      requires Valid()
    {
      Stream(Surfaces().Get(pb1 % 2 == 1), Progress(pw6, pw5, pw1, waitForData))
    }

    /** What a transfer refuses. */
    function TransferRefusal(): Status
      reads `tileBankSize, `pb1, `pw2
      requires Valid()
    {
      if pb1 % 128 >= 2 then BadSurface
      else if pb1 >= 128 && pw2 >= 1024 then BadBankId
      else if Origin() == BAD then BadTileIndex
      else Ok
    }

    /** Begin a transfer. */
    method BlitTransfer()
      requires Valid()
      modifies `pw1, `pw5, `pw6, `waitForData, `status
      ensures Valid()
      ensures status == TransferRefusal()
      ensures status == Ok ==> Transfer().p == Begun(old(Origin()))
      ensures status != Ok ==> pw1 == old(pw1) && pw5 == old(pw5) && pw6 == old(pw6) && waitForData == old(waitForData)
    {
      if pb1 % 128 >= 2 {
        status := BadSurface;
        return;
      }
      if pb1 >= 128 && pw2 / 1024 != 0 {
        status := BadBankId;
        return;
      }
      var coordinates := Origin();
      if coordinates == BAD {
        status := BadTileIndex;
        return;
      }
      waitForData := true;
      pw6, pw5, pw1 := coordinates, 0, 0;
      status := Ok;
    }

    /** One data byte of a transfer. */
    method TransferData()
      requires Valid() && waitForData
      modifies `pw1, `pw5, `pw6, `waitForData, `status, videoram0, videoram1
      ensures Valid() && status == Ok
      ensures Transfer() == Data(old(Transfer()), Sides().0, Sides().1, pb3)
      ensures Surfaces().Get(pb1 % 2 == 0) == old(Surfaces()).Get(pb1 % 2 == 0)
    {
      hide TileSide, SideOf, TileAt;
      var (w, h) := Sides();
      var currAddr, currX, currY := pw6, pw5, pw1;
      if pb1 % 2 == 1 {
        videoram1[currAddr] := pb3;
      } else {
        videoram0[currAddr] := pb3;
      }
      currX := currX + 1;
      currAddr := Wrap(currAddr + 1);
      status := Ok;
      if currX >= w {
        WrapAdd(pw6 + 1, 256 - w);
        currAddr := Wrap(currAddr + (256 - w));
        currX := 0;
        currY := currY + 1;
        if currY >= h {
          waitForData := false;
          return;
        }
      }
      pw5, pw1, pw6 := currX, currY, currAddr;
    }

    /** A whole rectangle, or tile, streamed: the target surface is the old one with the rectangle painted. A refused
        transfer gets no data. */
    method StreamRectangle(values: seq<Byte>)
      requires Valid() && |values| == Count(Sides().0, Sides().1)
      modifies `pw1, `pw5, `pw6, `pb3, `waitForData, `status, videoram0, videoram1
      ensures Valid() && status == TransferRefusal() && (status == Ok ==> !waitForData)
      ensures var r := Rect(old(Origin()), old(Sides()).0, old(Sides()).1);
              var one := pb1 % 2 == 1;
              Surfaces() == if status != Ok then old(Surfaces())
                            else old(Surfaces()).Put(one, Painted(old(Surfaces()).Get(one), r, |values|, values))
    {
      hide Painted, Advance, Streamed, Data, SideOf, TileSide, TileAt;
      BlitTransfer();
      if status != Ok { return; }
      ghost var t, v := Transfer(), Surfaces();
      var (w, h) := Sides();
      ghost var r := Rect(Origin(), w, h);
      StreamPaints(t.surface, r, values);
      var i := 0;
      assert values[0..] == values;
      while i < |values| && waitForData
        invariant 0 <= i <= |values| && Valid() && status == Ok
        invariant Streamed(Transfer(), w, h, values[i..]) == Streamed(t, w, h, values)
        invariant Surfaces().Get(pb1 % 2 == 0) == v.Get(pb1 % 2 == 0)
      {
        StreamStep(Transfer(), w, h, values[i..]);
        pb3 := values[i];
        TransferData();
        assert values[i..][1..] == values[i + 1..];
        i := i + 1;
      }
      StreamStep(Transfer(), w, h, values[i..]);
    }

    /** The rectangles, operator and colours of a blit, as the registers give them. */
    function Operation(): Blit
      reads `tileBankSize, `pb1, `pb3, `pb5, `pw2, `pw3, `pw4, `pw6
      requires Valid()
    {
      var target := if pb5 >= 128 then pw6 / 256 % 32 * 2048 + pw6 % 32 * 8 else pw6;
      Blit(pb3, pb1 % 2 == 1, Origin(), pb5 % 2 == 1, target, Sides().0, Sides().1, pw3 / 256, pw3 % 256)
    }

    /** What the blit refuses. */
    function Refusal(): Status
      reads `tileBankSize, `pb1, `pb3, `pb5, `pw2, `pw6
      requires Valid()
    {
      if pb1 % 128 >= 2 || pb5 % 128 >= 2 then BadSurface
      else if pb1 >= 128 && Origin() == BAD then BadTileIndex
      else if pb5 >= 128 && (pw6 / 256 >= 32 || pw6 % 256 >= 32) then BadCellCoordinates
      else if pb3 > 6 then BadOperator
      else Ok
    }

    method Mix(b: Blit, sourceAddr: Address, targetAddr: Address)
      requires Valid()
      modifies videoram0, videoram1
      ensures var v := old(Surfaces());
              var t := v.Get(b.to);
              |t| == 65536 && |v.Get(b.from)| == 65536 &&
              Surfaces() ==
                v.Put(b.to, t[targetAddr := Combine(b.op, t[targetAddr], b.Color(v.Get(b.from)[sourceAddr]))])
    {
      hide Combine;
      var color := b.Color(if b.from then videoram1[sourceAddr] else videoram0[sourceAddr]);
      if b.to {
        videoram1[targetAddr] := Combine(b.op, videoram1[targetAddr], color);
      } else {
        videoram0[targetAddr] := Combine(b.op, videoram0[targetAddr], color);
      }
    }

    /** One row of a blit. */
    method BlitRow(b: Blit, y: nat, sourceStart: Address, targetStart: Address)
        returns (sourceAddr: Address, targetAddr: Address)
      requires Valid() && y < b.h && sourceStart == Pixel(b.source, 0, y) && targetStart == Pixel(b.target, 0, y)
      modifies videoram0, videoram1
      ensures Surfaces().Valid() && old(Surfaces()).Valid()
      ensures BlitFrom(old(Surfaces()), b, 0, y) ==
              if y + 1 < b.h then BlitFrom(Surfaces(), b, 0, y + 1) else Surfaces()
      ensures sourceAddr == Pixel(b.source, b.w, y) && targetAddr == Pixel(b.target, b.w, y)
    {
      hide Combine, Pixel;
      sourceAddr, targetAddr := sourceStart, targetStart;
      var x := 0;
      while x < b.w
        invariant 0 <= x <= b.w && Surfaces().Valid()
        invariant BlitFrom(old(Surfaces()), b, 0, y) ==
                  if x < b.w then BlitFrom(Surfaces(), b, x, y)
                  else if y + 1 < b.h then BlitFrom(Surfaces(), b, 0, y + 1) else Surfaces()
        invariant sourceAddr == Pixel(b.source, x, y) && targetAddr == Pixel(b.target, x, y)
      {
        Mix(b, sourceAddr, targetAddr);
        StepRight(b.source, x, y);
        StepRight(b.target, x, y);
        targetAddr := Wrap(targetAddr + 1);
        sourceAddr := Wrap(sourceAddr + 1);
        x := x + 1;
      }
    }

    /** Mix the source rectangle into the target, pixel by pixel. */
    method BlitOperator()
      requires Valid()
      modifies `status, videoram0, videoram1
      ensures Valid() && status == Refusal()
      ensures Surfaces().Valid() && old(Surfaces()).Valid()
      ensures Surfaces() ==
              if Refusal() == Ok then BlitFrom(old(Surfaces()), Operation(), 0, 0) else old(Surfaces())
    {
      hide BlitFrom, Refusal, Operation, Pixel;
      status := Refusal();
      if status != Ok { return; }
      var b := Operation();
      var sourceAddr, targetAddr, y := b.source, b.target, 0;
      FirstPixel(b);
      while y < b.h
        invariant 0 <= y <= b.h && status == Ok && Surfaces().Valid()
        invariant sourceAddr == Pixel(b.source, 0, y) && targetAddr == Pixel(b.target, 0, y)
        invariant BlitFrom(old(Surfaces()), b, 0, 0) == if y < b.h then BlitFrom(Surfaces(), b, 0, y) else Surfaces()
      {
        sourceAddr, targetAddr := BlitRow(b, y, sourceAddr, targetAddr);
        RowEnd(b.source, b.w, y);
        RowEnd(b.target, b.w, y);
        targetAddr := Wrap(targetAddr + (256 - b.w));
        sourceAddr := Wrap(sourceAddr + (256 - b.w));
        y := y + 1;
      }
    }
  }

  lemma FirstPixel(b: Blit)
    ensures Pixel(b.source, 0, 0) == b.source && Pixel(b.target, 0, 0) == b.target
  {
  }

  lemma RowEnd(start: Address, w: Side, y: nat)
    ensures Wrap(Pixel(start, w, y) + (256 - w)) == Pixel(start, 0, y + 1)
  {
    WrapAdd(start + 256 * y + w, 256 - w);
  }

  lemma {:induction false} StreamStep(t: Stream, w: Side, h: Side, v: seq<Byte>)
    requires IsSurface(t.surface)
    ensures Streamed(t, w, h, v) == if v == [] || !t.p.waiting then t else Streamed(Data(t, w, h, v[0]), w, h, v[1..])
  {
  }
}
