/** The firmware's Graphics Output Protocol: the frame buffer's size for a list of modes, setting a mode,
    and the block transfers inside one. */
module Gop {
  import opened Bytes
  import opened Blit

  /** The device gives a width and a height of 16 bits each; every mode has 32-bit pixels. */
  type UInt16 = u: int | 0 <= u < 0x1_0000

  datatype Mode = Mode(width: UInt16, height: UInt16)

  const PAGE: int := 0x1000

  function ModeSize(m: Mode): nat { m.width * m.height * 4 }

  function LargestFrom(modes: seq<Mode>): (size: UInt32)
    ensures forall i :: 0 <= i < |modes| ==> Wrap32(ModeSize(modes[i])) <= size
    ensures size == 0 || exists i :: 0 <= i < |modes| && size == Wrap32(ModeSize(modes[i]))
  {
    if modes == [] then 0
    else
      var n := |modes| - 1;
      var rest, size := LargestFrom(modes[..n]), Wrap32(ModeSize(modes[n]));
      assert forall i :: 0 <= i < n ==> modes[..n][i] == modes[i];
      if size > rest then size else rest
  }

  /** A size rounded up to pages, in 32 bits. */
  function Rounded(size: UInt32): UInt32 {
    var sum := Wrap32(size + (PAGE - 1));
    sum - sum % PAGE
  }

  method AllocationSize(modes: seq<Mode>) returns (size: UInt32)
    ensures size == Rounded(LargestFrom(modes))
  {
    hide Wrap32;
    var largest := 0;
    var i := 0;
    while i < |modes|
      invariant 0 <= i <= |modes|
      invariant largest == LargestFrom(modes[..i])
    {
      size := Wrap32(Wrap32(modes[i].width * modes[i].height) * 4);
      ProductWraps(modes[i]);
      assert modes[..i + 1][..i] == modes[..i];
      largest := if size > largest then size else largest;
      i := i + 1;
    }
    assert modes[..i] == modes;
    size := Rounded(largest);
  }

  lemma ProductWraps(m: Mode)
    ensures Wrap32(Wrap32(m.width * m.height) * 4) == Wrap32(ModeSize(m))
  {
    var product := m.width * m.height;
    Mul(m.width, 0xFFFF, m.height);
    Mul(m.height, 0xFFFF, 0xFFFF);
    NoWrap(product);
  }

  /** No mode shows more than the allocation holds. */
  predicate CoversAll(modes: seq<Mode>, size: nat) {
    forall i :: 0 <= i < |modes| ==> ModeSize(modes[i]) <= size
  }

  /** Every mode's bytes are at most 2^32 less a page. */
  predicate AllFit(modes: seq<Mode>) {
    forall i :: 0 <= i < |modes| ==> ModeSize(modes[i]) <= U32 - PAGE
  }

  lemma RoundedUp(size: UInt32)
    ensures size <= U32 - PAGE ==> size <= Rounded(size) < size + PAGE && Rounded(size) % PAGE == 0
    ensures size > U32 - PAGE ==> Rounded(size) == 0
  {
  }

  /** The allocation covers every mode exactly when every mode's pixels fit in 32 bits less a page: past
      that the sum, or the size itself, wraps. Then it is the largest rounded up to pages. */
  lemma AllocationCoversIff(modes: seq<Mode>)
    ensures CoversAll(modes, Rounded(LargestFrom(modes)))
       <==> AllFit(modes)
  {
    hide Wrap32, Rounded, ModeSize;
    var largest := LargestFrom(modes);
    RoundedUp(largest);
    if AllFit(modes) {
      forall i | 0 <= i < |modes| ensures ModeSize(modes[i]) <= Rounded(largest) {
        NoWrap(ModeSize(modes[i]));
        LargestIsOne(modes);
      }
    } else {
      var i :| 0 <= i < |modes| && ModeSize(modes[i]) > U32 - PAGE;
      if ModeSize(modes[i]) < U32 {
        NoWrap(ModeSize(modes[i]));
        assert Wrap32(ModeSize(modes[i])) <= largest;
      }
    }
  }

  lemma LargestIsOne(modes: seq<Mode>)
    requires AllFit(modes)
    ensures LargestFrom(modes) <= U32 - PAGE
  {
    hide Wrap32, ModeSize;
    if LargestFrom(modes) > 0 {
      var i :| 0 <= i < |modes| && LargestFrom(modes) == Wrap32(ModeSize(modes[i]));
      NoWrap(ModeSize(modes[i]));
    }
  }

  /** A rectangle inside a mode. */
  predicate InMode(m: Mode, x: nat, y: nat, width: nat, height: nat) {
    x + width <= m.width && y + height <= m.height
  }

  /** Inside a mode the allocation covers, a rectangle is inside the frame buffer. */
  lemma InModeIsWithin(m: Mode, x: nat, y: nat, width: nat, height: nat, size: UInt32)
    requires InMode(m, x, y, width, height) && ModeSize(m) <= size
    ensures Within(m.width * 4, x, y, width, height, size / 4)
  {
    Mul(y + height, m.height, m.width);
    var rows := y + height;
    assert rows * (m.width * 4) == 4 * (rows * m.width);
    assert m.width * m.height == m.height * m.width;
  }

  /** `out` is `before` with the rectangle filled with `color`. */
  ghost predicate Filled(before: seq<Pixel>, out: seq<Pixel>, r: Rect, color: Pixel) {
    && |out| == |before|
    && (forall x: nat, y: nat :: InRect(r, x, y) ==> To(r, x, y) < |out| && out[To(r, x, y)] == color)
    && (forall i: nat :: i < |before| && !Hit(r, i) ==> out[i] == before[i])
  }

  /** Pixel `i`, `j` of the rectangle of `out` at column `x` of row `y`, in rows of `columns`, is that of `src`
      at column `fromX` of row `fromY`, in rows of `fromColumns`. */
  predicate PixelIs(src: seq<Pixel>, fromColumns: nat, fromX: nat, fromY: nat,
                    out: seq<Pixel>, columns: nat, x: nat, y: nat, i: nat, j: nat) {
    var from, to := (fromY + j) * fromColumns + fromX + i, (y + j) * columns + x + i;
    from < |src| && to < |out| && out[to] == src[from]
  }

  ghost predicate PixelsAre(src: seq<Pixel>, fromColumns: nat, fromX: nat, fromY: nat,
                            out: seq<Pixel>, columns: nat, x: nat, y: nat, w: nat, h: nat) {
    forall i: nat, j: nat :: i < w && j < h ==> PixelIs(src, fromColumns, fromX, fromY, out, columns, x, y, i, j)
  }

  predicate IsPixel(k: nat, columns: nat, x: nat, y: nat, i: nat, j: nat) { k == (y + j) * columns + x + i }

  /** No pixel outside the rectangle has changed. */
  ghost predicate OthersKept(before: seq<Pixel>, out: seq<Pixel>, columns: nat, x: nat, y: nat, w: nat, h: nat) {
    && |out| == |before|
    && forall k: nat :: k < |out| && (forall i: nat, j: nat :: i < w && j < h ==> !IsPixel(k, columns, x, y, i, j)) ==>
         out[k] == before[k]
  }

  lemma NotHit(k: nat, r: Rect)
    requires forall i: nat, j: nat :: i < r.width && j < r.height ==>
               !IsPixel(k, r.destinationPitch / 4, r.destinationX, r.destinationY, i, j)
    ensures !Hit(r, k)
  {
    if Hit(r, k) {
      var i: nat, j: nat :| InRect(r, i, j) && k == To(r, i, j);
      assert IsPixel(k, r.destinationPitch / 4, r.destinationX, r.destinationY, i, j);
    }
  }

  lemma CopiedPixels(src: seq<Pixel>, dst: seq<Pixel>, out: seq<Pixel>, r: Rect)
    requires Copied(src, dst, out, r)
    ensures PixelsAre(src, r.sourcePitch / 4, r.sourceX, r.sourceY,
                      out, r.destinationPitch / 4, r.destinationX, r.destinationY, r.width, r.height)
    ensures OthersKept(dst, out, r.destinationPitch / 4, r.destinationX, r.destinationY, r.width, r.height)
  {
    var from, to := r.sourcePitch / 4, r.destinationPitch / 4;
    forall i: nat, j: nat | i < r.width && j < r.height
      ensures PixelIs(src, from, r.sourceX, r.sourceY, out, to, r.destinationX, r.destinationY, i, j) {
      assert InRect(r, i, j) && From(r, i, j) < |src| && To(r, i, j) < |out|;
    }
    forall k: nat | k < |out| && forall i: nat, j: nat :: i < r.width && j < r.height ==>
                                   !IsPixel(k, to, r.destinationX, r.destinationY, i, j)
      ensures out[k] == dst[k] {
      NotHit(k, r);
    }
  }

  /** Pixel `i`, `j` of the rectangle at column `x` of row `y`, in rows of `columns`, is `color`. */
  predicate ColorIs(out: seq<Pixel>, columns: nat, x: nat, y: nat, i: nat, j: nat, color: Pixel) {
    var to := (y + j) * columns + x + i;
    to < |out| && out[to] == color
  }

  lemma FilledPixels(before: seq<Pixel>, out: seq<Pixel>, r: Rect, color: Pixel)
    requires Filled(before, out, r, color)
    ensures var columns := r.destinationPitch / 4;
            && (forall i: nat, j: nat :: i < r.width && j < r.height ==>
                  ColorIs(out, columns, r.destinationX, r.destinationY, i, j, color))
            && OthersKept(before, out, columns, r.destinationX, r.destinationY, r.width, r.height)
  {
    var columns := r.destinationPitch / 4;
    forall i: nat, j: nat | i < r.width && j < r.height
      ensures ColorIs(out, columns, r.destinationX, r.destinationY, i, j, color) {
      assert InRect(r, i, j) && To(r, i, j) < |out|;
    }
    forall k: nat | k < |out| && forall i: nat, j: nat :: i < r.width && j < r.height ==>
                                   !IsPixel(k, columns, r.destinationX, r.destinationY, i, j)
      ensures out[k] == before[k] {
      NotHit(k, r);
    }
  }

  /** The whole of a mode is in it. */
  lemma WholeIsIn(m: Mode)
    ensures InMode(m, 0, 0, m.width, m.height)
  {
  }

  lemma PagesOfPixels(size: UInt32)
    ensures Rounded(size) % 4 == 0
  {
  }

  datatype Status = Success | Unsupported

  class Output {
    const modes: seq<Mode>
    const frameBuffer: array<Pixel>
    var mode: nat
    var width: UInt16
    var height: UInt16
    var frameBufferSize: UInt32

    /** The mode's fields are the list's, and the frame buffer is the size allocated for the list. */
    ghost predicate Valid()
      reads this
    {
      && mode < |modes| && width == modes[mode].width && height == modes[mode].height
      && frameBufferSize == Wrap32(ModeSize(modes[mode]))
      && 4 * frameBuffer.Length == Rounded(LargestFrom(modes))
    }

    constructor (list: seq<Mode>)
      requires list != []
      ensures Valid() && modes == list && mode == 0 && fresh(frameBuffer)
      ensures AllFit(list) ==> Shown()
    {
      hide Wrap32, LargestFrom, Rounded, ModeSize, AllFit;
      AllocationCoversIff(list);
      var size := AllocationSize(list);
      PagesOfPixels(LargestFrom(list));
      modes := list;
      frameBuffer := new Pixel[size / 4](i => 0);
      mode, width, height := 0, list[0].width, list[0].height;
      frameBufferSize := Wrap32(Wrap32(list[0].width * list[0].height) * 4);
      ProductWraps(list[0]);
    }

    method SetMode(number: UInt32) returns (status: Status)
      requires Valid()
      modifies this
      ensures Valid()
      ensures status == if number < |modes| then Success else Unsupported
      ensures mode == if number < |modes| then number else old(mode)
      ensures AllFit(modes) ==> Shown()
    {
      hide Wrap32, LargestFrom, Rounded, ModeSize, AllFit;
      AllocationCoversIff(modes);
      if number >= |modes| {
        return Unsupported;
      }
      mode, width, height := number, modes[number].width, modes[number].height;
      frameBufferSize := Wrap32(Wrap32(width * height) * 4);
      ProductWraps(modes[number]);
      return Success;
    }

    /** The frame buffer shows the whole mode. */
    ghost predicate Shown()
      reads this
    {
      Valid() && ModeSize(modes[mode]) <= Rounded(LargestFrom(modes))
    }

    ghost predicate Inside(x: nat, y: nat, w: nat, h: nat)
      reads this
    {
      Shown() && InMode(modes[mode], x, y, w, h)
    }

    lemma InsideIsWithin(x: nat, y: nat, w: nat, h: nat)
      requires Inside(x, y, w, h)
      ensures Within(width * 4, x, y, w, h, frameBuffer.Length)
      ensures 4 * frameBuffer.Length < U32
      ensures x + w <= width && y + h <= height
    {
      hide Wrap32, LargestFrom, Rounded, ModeSize;
      InModeIsWithin(modes[mode], x, y, w, h, Rounded(LargestFrom(modes)));
    }

    /** EfiBltVideoFill */
    method VideoFill(color: Pixel, x: nat, y: nat, w: nat, h: nat)
      requires Inside(x, y, w, h)
      modifies frameBuffer
      ensures Filled(old(frameBuffer[..]), frameBuffer[..], Rect(0, 0, 0, w, h, width * 4, x, y), color)
      ensures forall i: nat, j: nat :: i < w && j < h ==> ColorIs(frameBuffer[..], width, x, y, i, j, color)
      ensures OthersKept(old(frameBuffer[..]), frameBuffer[..], width, x, y, w, h)
    {
      hide Wrap32, Row, Within, To, Hit, Inside, OthersKept, ColorIs;
      InsideIsWithin(x, y, w, h);
      var r := Rect(0, 0, 0, w, h, width * 4, x, y);
      var line := 0;
      while line < h
        invariant 0 <= line <= h
        invariant forall i: nat, j: nat :: InRect(r, i, j) && Before(i, j, 0, line) ==>
                    To(r, i, j) < frameBuffer.Length && frameBuffer[To(r, i, j)] == color
        invariant forall k: nat :: k < frameBuffer.Length && !Hit(r, k) ==> frameBuffer[k] == old(frameBuffer[k])
      {
        var row := Row(width * 4, y + line);
        var column := 0;
        while column < w
          invariant 0 <= column <= w
          invariant forall i: nat, j: nat :: InRect(r, i, j) && Before(i, j, column, line) ==>
                      To(r, i, j) < frameBuffer.Length && frameBuffer[To(r, i, j)] == color
          invariant forall k: nat :: k < frameBuffer.Length && !Hit(r, k) ==> frameBuffer[k] == old(frameBuffer[k])
        {
          ToWithin(r, column, line, frameBuffer.Length);
          ToDistinct(r, column, line, frameBuffer.Length);
          frameBuffer[row + Wrap32(x + column)] := color;
          column := column + 1;
        }
        line := line + 1;
      }
      FilledPixels(old(frameBuffer[..]), frameBuffer[..], r, color);
    }

    /** The pitch of a caller's buffer: a row of the rectangle, unless `delta` gives it. */
    static function Pitch(w: nat, delta: nat): UInt32 {
      Wrap32(if delta != 0 then delta else w * 4)
    }

    static lemma PitchIs(w: nat, delta: nat)
      requires delta < U32 && w < 0x1_0000
      ensures Pitch(w, delta) / 4 == if delta != 0 then delta / 4 else w
    {
    }

    /** EfiBltVideoToBltBuffer */
    method VideoToBuffer(buffer: array<Pixel>, fromX: nat, fromY: nat, toX: nat, toY: nat, w: nat, h: nat, delta: nat)
      requires buffer != frameBuffer && Inside(fromX, fromY, w, h)
      requires toX < U32 && toY < U32 && Within(Pitch(w, delta), toX, toY, w, h, buffer.Length)
      modifies buffer
      ensures Copied(frameBuffer[..], old(buffer[..]), buffer[..],
                     Rect(width * 4, fromX, fromY, w, h, Pitch(w, delta), toX, toY))
      ensures delta < U32 ==> PixelsAre(frameBuffer[..], width, fromX, fromY,
                                        buffer[..], if delta != 0 then delta / 4 else w, toX, toY, w, h)
      ensures delta < U32 ==>
                OthersKept(old(buffer[..]), buffer[..], if delta != 0 then delta / 4 else w, toX, toY, w, h)
    {
      hide Wrap32, Within, Copied, Inside, PixelsAre, OthersKept;
      InsideIsWithin(fromX, fromY, w, h);
      var r := Rect(width * 4, fromX, fromY, w, h, Pitch(w, delta), toX, toY);
      ghost var before := buffer[..];
      CopyRect(frameBuffer, buffer, r);
      CopiedPixels(frameBuffer[..], before, buffer[..], r);
      if delta < U32 {
        PitchIs(w, delta);
      }
    }

    /** EfiBltBufferToVideo */
    method BufferToVideo(buffer: array<Pixel>, fromX: nat, fromY: nat, toX: nat, toY: nat, w: nat, h: nat, delta: nat)
      requires buffer != frameBuffer && Inside(toX, toY, w, h)
      requires fromX < U32 && fromY < U32 && Within(Pitch(w, delta), fromX, fromY, w, h, buffer.Length)
      modifies frameBuffer
      ensures Copied(buffer[..], old(frameBuffer[..]), frameBuffer[..],
                     Rect(Pitch(w, delta), fromX, fromY, w, h, width * 4, toX, toY))
      ensures delta < U32 ==> PixelsAre(buffer[..], if delta != 0 then delta / 4 else w, fromX, fromY,
                                        frameBuffer[..], width, toX, toY, w, h)
      ensures OthersKept(old(frameBuffer[..]), frameBuffer[..], width, toX, toY, w, h)
    {
      hide Wrap32, Within, Copied, Inside, PixelsAre, OthersKept;
      InsideIsWithin(toX, toY, w, h);
      var r := Rect(Pitch(w, delta), fromX, fromY, w, h, width * 4, toX, toY);
      ghost var before := frameBuffer[..];
      CopyRect(buffer, frameBuffer, r);
      CopiedPixels(buffer[..], before, frameBuffer[..], r);
      if delta < U32 {
        PitchIs(w, delta);
      }
    }

    /** EfiBltVideoToVideo: a simultaneous copy toward the display's start both ways, and the assignments
        of MoveRect any other way, as long as they stay in the frame buffer. */
    method VideoToVideo(fromX: nat, fromY: nat, toX: nat, toY: nat, w: nat, h: nat)
      requires Inside(fromX, fromY, w, h) && Inside(toX, toY, w, h)
      requires var r := Rect(width * 4, fromX, fromY, w, h, width * 4, toX, toY);
               EmptyOrForward(r) || Touches(r, frameBuffer.Length)
      modifies frameBuffer
      ensures var r, before := Rect(width * 4, fromX, fromY, w, h, width * 4, toX, toY), old(frameBuffer[..]);
              && Touches(r, frameBuffer.Length) && frameBuffer[..] == Moved(before, r, h)
              && (EmptyOrForward(r) ==> Copied(before, before, frameBuffer[..], r))
      ensures (w > 0 && h > 0 ==> toX <= fromX && toY <= fromY) ==>
                && PixelsAre(old(frameBuffer[..]), width, fromX, fromY, frameBuffer[..], width, toX, toY, w, h)
                && OthersKept(old(frameBuffer[..]), frameBuffer[..], width, toX, toY, w, h)
    {
      hide Wrap32, Within, Copied, Inside, Touches, PixelsAre, OthersKept;
      InsideIsWithin(fromX, fromY, w, h);
      InsideIsWithin(toX, toY, w, h);
      var r := Rect(width * 4, fromX, fromY, w, h, width * 4, toX, toY);
      ghost var before := frameBuffer[..];
      if EmptyOrForward(r) {
        SurfaceTouches(r, frameBuffer.Length);
        MoveIsRight(before, r);
      }
      MoveRect(frameBuffer, r);
      if EmptyOrForward(r) {
        CopiedPixels(before, before, frameBuffer[..], r);
      }
    }
  }

  lemma SurfaceTouches(r: Rect, length: nat)
    requires InSurface(r, length) && r.sourcePitch % 4 == 0
    requires EmptyOrForward(r)
    ensures Touches(r, length)
  {
    hide Within, MoveFrom, MoveTo, From, To;
    forall x: nat, y: nat | InRect(r, x, y) ensures MoveFrom(r, x, y) < length && MoveTo(r, x, y) < length {
      ForwardTouches(r, x, y, length);
    }
  }

  lemma MoveIsRight(m: seq<Pixel>, r: Rect)
    requires InSurface(r, |m|) && Touches(r, |m|)
    requires EmptyOrForward(r)
    ensures Copied(m, m, Moved(m, r, r.height), r)
  {
    hide Within, Touches, Moved, Copied;
    if r.width > 0 && r.height > 0 {
      ForwardIsSimultaneous(m, r);
    } else {
      EmptyIsRight(m, r);
    }
  }
}
