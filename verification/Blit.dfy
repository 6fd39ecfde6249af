/** The firmware's rectangle copies on a linear frame buffer of 32-bit pixels. Memory is an array of
    pixels; rows start at byte offsets computed in 32 bits. */
module Blit {
  import opened Bytes

  type Pixel = p: int | 0 <= p < U32
  type UInt32 = u: int | 0 <= u < U32

  datatype Rect = Rect(
    sourcePitch: UInt32, sourceX: UInt32, sourceY: UInt32, width: UInt32, height: UInt32,
    destinationPitch: UInt32, destinationX: UInt32, destinationY: UInt32)

  /** The pixel at column `x` of row `y`, in rows of `columns`. */
  function Index(columns: nat, x: nat, y: nat): nat { y * columns + x }

  /** Where row `y` starts, in pixels: the byte offset is a 32-bit product. */
  function Row(pitch: UInt32, y: int): nat { Wrap32(Wrap32(y) * pitch) / 4 }

  /** A rectangle lies in a surface of `length` pixels, whose rows are whole pixels. */
  predicate Within(pitch: UInt32, x: UInt32, y: UInt32, width: UInt32, height: UInt32, length: nat) {
    || width == 0
    || height == 0
    || (&& pitch % 4 == 0 && x + width <= pitch / 4
        && (y + height) * (pitch / 4) <= length
        && (y + height) * pitch <= U32)
  }

  predicate SourceWithin(r: Rect, length: nat) {
    Within(r.sourcePitch, r.sourceX, r.sourceY, r.width, r.height, length)
  }

  predicate DestinationWithin(r: Rect, length: nat) {
    Within(r.destinationPitch, r.destinationX, r.destinationY, r.width, r.height, length)
  }

  function From(r: Rect, x: nat, y: nat): nat { Index(r.sourcePitch / 4, r.sourceX + x, r.sourceY + y) }

  function To(r: Rect, x: nat, y: nat): nat { Index(r.destinationPitch / 4, r.destinationX + x, r.destinationY + y) }

  predicate InRect(r: Rect, x: int, y: int) { 0 <= x < r.width && 0 <= y < r.height }

  ghost predicate Hit(r: Rect, i: nat) {
    exists x: nat, y: nat :: InRect(r, x, y) && i == To(r, x, y)
  }

  /** `out` is `dst` with the rectangle of `src` in it, and nothing else changed. */
  ghost predicate Copied(src: seq<Pixel>, dst: seq<Pixel>, out: seq<Pixel>, r: Rect) {
    && |out| == |dst|
    && (forall x: nat, y: nat :: InRect(r, x, y) ==>
          From(r, x, y) < |src| && To(r, x, y) < |out| && out[To(r, x, y)] == src[From(r, x, y)])
    && (forall i: nat :: i < |dst| && !Hit(r, i) ==> out[i] == dst[i])
  }

  // ---- places

  lemma Mul(a: nat, b: nat, c: nat)
    requires a <= b
    ensures a * c <= b * c
  {
  }

  lemma SameIndex(columns: nat, x: nat, y: nat, x': nat, y': nat)
    requires x < columns && x' < columns && Index(columns, x, y) == Index(columns, x', y')
    ensures x == x' && y == y'
  {
    if y < y' {
      Mul(y + 1, y', columns);
    } else if y' < y {
      Mul(y' + 1, y, columns);
    }
  }

  lemma NoWrap(x: nat)
    requires x < U32
    ensures Wrap32(x) == x
  {
  }

  lemma RowOffset(n: nat, pitch: nat)
    requires pitch % 4 == 0 && n * pitch < U32
    ensures Wrap32(n * pitch) / 4 == n * (pitch / 4)
  {
    NoWrap(n * pitch);
    hide Wrap32;
    var columns := pitch / 4;
    assert n * pitch == 4 * (n * columns) by {
      assert pitch == 4 * columns;
    }
  }

  /** Inside a surface the 32-bit offsets do not wrap. */
  lemma RowStarts(pitch: UInt32, x: UInt32, y: UInt32, width: UInt32, height: UInt32, length: nat, dx: nat, dy: nat)
    requires Within(pitch, x, y, width, height, length) && dx < width && dy < height
    ensures Wrap32(y + dy) == y + dy && Wrap32(x + dx) == x + dx
    ensures Row(pitch, y + dy) == (y + dy) * (pitch / 4)
    ensures Index(pitch / 4, x + dx, y + dy) < length
  {
    hide Wrap32;
    var columns, n := pitch / 4, y + dy;
    assert columns >= 1 && pitch >= 4;
    Mul(n + 1, y + height, columns);
    Mul(n + 1, y + height, pitch);
    assert (n + 1) * columns == n * columns + columns;
    assert (n + 1) * pitch == n * pitch + pitch;
    Mul(1, pitch, n);
    assert n < U32;
    NoWrap(n);
    NoWrap(x + dx);
    RowOffset(n, pitch);
  }

  // ---- between two surfaces

  /** The pixel at `x`, `y` is one of those before column `toX` of row `toY`. */
  predicate Before(x: nat, y: nat, toX: nat, toY: nat) { y < toY || (y == toY && x < toX) }

  lemma ToDistinct(r: Rect, x: nat, y: nat, length: nat)
    requires DestinationWithin(r, length) && InRect(r, x, y)
    ensures forall i: nat, j: nat :: InRect(r, i, j) && To(r, i, j) == To(r, x, y) ==> i == x && j == y
  {
    forall i: nat, j: nat | InRect(r, i, j) && To(r, i, j) == To(r, x, y) ensures i == x && j == y {
      SameIndex(r.destinationPitch / 4, r.destinationX + i, r.destinationY + j, r.destinationX + x, r.destinationY + y);
    }
  }

  lemma ToWithin(r: Rect, x: nat, y: nat, length: nat)
    requires DestinationWithin(r, length) && InRect(r, x, y)
    ensures To(r, x, y) < length && Hit(r, To(r, x, y))
    ensures Row(r.destinationPitch, r.destinationY + y) + Wrap32(r.destinationX + x) == To(r, x, y)
  {
    hide Wrap32, Within;
    RowStarts(r.destinationPitch, r.destinationX, r.destinationY, r.width, r.height, length, x, y);
  }

  lemma FromWithin(r: Rect, x: nat, y: nat, length: nat)
    requires SourceWithin(r, length) && InRect(r, x, y)
    ensures From(r, x, y) < length
    ensures Row(r.sourcePitch, r.sourceY + y) + Wrap32(r.sourceX + x) == From(r, x, y)
  {
    hide Wrap32, Within;
    RowStarts(r.sourcePitch, r.sourceX, r.sourceY, r.width, r.height, length, x, y);
  }

  method CopyRect(source: array<Pixel>, destination: array<Pixel>, r: Rect)
    requires source != destination
    requires SourceWithin(r, source.Length) && DestinationWithin(r, destination.Length)
    modifies destination
    ensures Copied(source[..], old(destination[..]), destination[..], r)
  {
    hide Wrap32, Row, Within, From, To, Hit;
    var y := 0;
    while y < r.height
      invariant 0 <= y <= r.height
      invariant forall i: nat, j: nat :: InRect(r, i, j) && Before(i, j, 0, y) ==>
                  && From(r, i, j) < source.Length && To(r, i, j) < destination.Length
                  && destination[To(r, i, j)] == source[From(r, i, j)]
      invariant forall k: nat :: k < destination.Length && !Hit(r, k) ==> destination[k] == old(destination[k])
    {
      var sourceRow := Row(r.sourcePitch, r.sourceY + y);
      var destinationRow := Row(r.destinationPitch, r.destinationY + y);
      var x := 0;
      while x < r.width
        invariant 0 <= x <= r.width
        invariant forall i: nat, j: nat :: InRect(r, i, j) && Before(i, j, x, y) ==>
                    && From(r, i, j) < source.Length && To(r, i, j) < destination.Length
                    && destination[To(r, i, j)] == source[From(r, i, j)]
        invariant forall k: nat :: k < destination.Length && !Hit(r, k) ==> destination[k] == old(destination[k])
      {
        FromWithin(r, x, y, source.Length);
        ToWithin(r, x, y, destination.Length);
        ToDistinct(r, x, y, destination.Length);
        destination[destinationRow + Wrap32(r.destinationX + x)] := source[sourceRow + Wrap32(r.sourceX + x)];
        x := x + 1;
      }
      y := y + 1;
    }
  }

  /** The same rectangle the other way. */
  function Back(r: Rect): Rect {
    Rect(r.destinationPitch, r.destinationX, r.destinationY, r.width, r.height, r.sourcePitch, r.sourceX, r.sourceY)
  }

  /** A rectangle written to the video and read back into the buffer leaves the buffer as it was, whatever
      the pitches. */
  lemma ThereAndBack(buffer: seq<Pixel>, video: seq<Pixel>, video': seq<Pixel>, buffer': seq<Pixel>, r: Rect)
    requires Copied(buffer, video, video', r) && Copied(video', buffer, buffer', Back(r))
    ensures buffer' == buffer
  {
    hide From, To, Within;
    forall i: nat | i < |buffer| ensures buffer'[i] == buffer[i] {
      if Hit(Back(r), i) {
        var x: nat, y: nat :| InRect(Back(r), x, y) && i == To(Back(r), x, y);
        SwapPlaces(r, x, y);
      }
    }
  }

  lemma SwapPlaces(r: Rect, x: nat, y: nat)
    ensures To(Back(r), x, y) == From(r, x, y) && From(Back(r), x, y) == To(r, x, y)
    ensures InRect(Back(r), x, y) == InRect(r, x, y)
  {
  }

  // ---- within one surface

  /** One past the source rectangle's end when the destination is further on, and its start otherwise. */
  function StartSource(source: UInt32, destination: UInt32, size: UInt32): UInt32 {
    if source < destination then Wrap32(source + size) else source
  }

  /** Another size beyond that, wherever the destination is; its start when it is no further on. */
  function StartDestination(source: UInt32, destination: UInt32, size: UInt32): UInt32 {
    if source < destination then Wrap32(StartSource(source, destination, size) + size) else destination
  }

  function Offset(source: UInt32, destination: UInt32, n: nat): UInt32 {
    Wrap32(if source < destination then 0 - n else n)
  }

  function MoveFrom(r: Rect, x: nat, y: nat): nat {
    var row := StartSource(r.sourceY, r.destinationY, r.height) + Offset(r.sourceY, r.destinationY, y);
    var column := StartSource(r.sourceX, r.destinationX, r.width) + Offset(r.sourceX, r.destinationX, x);
    Row(r.sourcePitch, row) + Wrap32(column)
  }

  function MoveTo(r: Rect, x: nat, y: nat): nat {
    var row := StartDestination(r.sourceY, r.destinationY, r.height) + Offset(r.sourceY, r.destinationY, y);
    var column := StartDestination(r.sourceX, r.destinationX, r.width) + Offset(r.sourceX, r.destinationX, x);
    Row(r.destinationPitch, row) + Wrap32(column)
  }

  /** Every pixel the move touches is in the memory from the surface's start on. */
  ghost predicate Touches(r: Rect, length: nat) {
    && r.sourcePitch % 4 == 0 && r.destinationPitch % 4 == 0
    && forall x: nat, y: nat :: InRect(r, x, y) ==> MoveFrom(r, x, y) < length && MoveTo(r, x, y) < length
  }

  /** Memory after the first `n` pixels of row `y`. */
  ghost function RowMoved(m: seq<Pixel>, r: Rect, n: nat, y: nat): (out: seq<Pixel>)
    requires Touches(r, |m|) && n <= r.width && y < r.height
    ensures |out| == |m|
  {
    if n == 0 then m
    else
      assert InRect(r, n - 1, y);
      var b := RowMoved(m, r, n - 1, y);
      b[MoveTo(r, n - 1, y) := b[MoveFrom(r, n - 1, y)]]
  }

  /** Memory after the first `rows` rows. */
  ghost function Moved(m: seq<Pixel>, r: Rect, rows: nat): (out: seq<Pixel>)
    requires Touches(r, |m|) && rows <= r.height
    ensures |out| == |m|
  {
    if rows == 0 then m else RowMoved(Moved(m, r, rows - 1), r, r.width, rows - 1)
  }

  lemma RowStep(m: seq<Pixel>, r: Rect, n: nat, y: nat)
    requires Touches(r, |m|) && InRect(r, n, y)
    ensures MoveFrom(r, n, y) < |m| && MoveTo(r, n, y) < |m|
    ensures RowMoved(m, r, n + 1, y) == RowMoved(m, r, n, y)[MoveTo(r, n, y) := RowMoved(m, r, n, y)[MoveFrom(r, n, y)]]
  {
    hide MoveFrom, MoveTo;
  }

  lemma NoneMoved(m: seq<Pixel>, r: Rect, y: nat)
    requires Touches(r, |m|) && y < r.height
    ensures RowMoved(m, r, 0, y) == m
  {
  }

  method MoveRect(memory: array<Pixel>, r: Rect)
    requires Touches(r, memory.Length)
    modifies memory
    ensures memory[..] == Moved(old(memory[..]), r, r.height)
  {
    hide Wrap32, Row, RowMoved, Touches;
    ghost var before := memory[..];
    var startSourceX, startDestinationX := r.sourceX, r.destinationX;
    if r.sourceX < r.destinationX {
      startSourceX := Wrap32(r.sourceX + r.width);
      startDestinationX := Wrap32(startSourceX + r.width);
    }
    var startSourceY, startDestinationY := r.sourceY, r.destinationY;
    if r.sourceY < r.destinationY {
      startSourceY := Wrap32(r.sourceY + r.height);
      startDestinationY := Wrap32(startSourceY + r.height);
    }
    var y := 0;
    while y < r.height
      invariant 0 <= y <= r.height
      invariant memory[..] == Moved(before, r, y)
    {
      var offsetY := Wrap32(if r.sourceY < r.destinationY then 0 - y else y);
      var sourceRow := Row(r.sourcePitch, startSourceY + offsetY);
      var destinationRow := Row(r.destinationPitch, startDestinationY + offsetY);
      var x := 0;
      ghost var above := memory[..];
      assert RowMoved(above, r, 0, y) == above by {
        NoneMoved(above, r, y);
      }
      while x < r.width
        invariant 0 <= x <= r.width
        invariant memory[..] == RowMoved(above, r, x, y)
      {
        RowStep(above, r, x, y);
        var offsetX := Wrap32(if r.sourceX < r.destinationX then 0 - x else x);
        var sourceX := Wrap32(startSourceX + offsetX);
        var destinationX := Wrap32(startDestinationX + offsetX);
        assert sourceRow + sourceX == MoveFrom(r, x, y) && destinationRow + destinationX == MoveTo(r, x, y);
        memory[destinationRow + destinationX] := memory[sourceRow + sourceX];
        x := x + 1;
      }
      y := y + 1;
    }
  }

  /** The destination lies before the source, or at it, both ways. */
  predicate Forward(r: Rect) { r.destinationX <= r.sourceX && r.destinationY <= r.sourceY }

  predicate EmptyOrForward(r: Rect) { r.width == 0 || r.height == 0 || Forward(r) }

  /** The surface holds both rectangles; its rows are of one pitch. */
  predicate InSurface(r: Rect, length: nat) {
    r.sourcePitch == r.destinationPitch && SourceWithin(r, length) && DestinationWithin(r, length)
  }

  lemma ForwardTouches(r: Rect, x: nat, y: nat, length: nat)
    requires InSurface(r, length) && Forward(r) && InRect(r, x, y)
    ensures MoveFrom(r, x, y) == From(r, x, y) < length && MoveTo(r, x, y) == To(r, x, y) < length
    ensures Hit(r, To(r, x, y))
  {
    hide Wrap32, Within, From, To;
    FromWithin(r, x, y, length);
    ToWithin(r, x, y, length);
    NoWrap(x);
    NoWrap(y);
  }

  /** What a forward move has yet to read it has not written. */
  lemma ReadsBeforeWrites(r: Rect, x: nat, y: nat, length: nat)
    requires InSurface(r, length) && Forward(r) && InRect(r, x, y)
    ensures forall i: nat, j: nat :: InRect(r, i, j) && Before(i, j, x, y) ==> To(r, i, j) != From(r, x, y)
  {
    var columns := r.sourcePitch / 4;
    forall i: nat, j: nat | InRect(r, i, j) && Before(i, j, x, y) ensures To(r, i, j) != From(r, x, y) {
      if To(r, i, j) == From(r, x, y) {
        SameIndex(columns, r.destinationX + i, r.destinationY + j, r.sourceX + x, r.sourceY + y);
      }
    }
  }

  /** Memory with the pixels before column `x` of row `y` moved, and the rest as they were. */
  ghost predicate MovedTo(m: seq<Pixel>, out: seq<Pixel>, r: Rect, x: nat, y: nat) {
    && |out| == |m|
    && (forall i: nat, j: nat :: InRect(r, i, j) && Before(i, j, x, y) ==>
          From(r, i, j) < |m| && To(r, i, j) < |m| && out[To(r, i, j)] == m[From(r, i, j)])
    && (forall k: nat :: k < |m| && !HitBefore(r, k, x, y) ==> out[k] == m[k])
  }

  ghost predicate HitBefore(r: Rect, k: nat, x: nat, y: nat) {
    exists i: nat, j: nat :: InRect(r, i, j) && Before(i, j, x, y) && k == To(r, i, j)
  }

  lemma PixelForward(m: seq<Pixel>, c: seq<Pixel>, r: Rect, x: nat, y: nat)
    requires InSurface(r, |m|) && Forward(r) && InRect(r, x, y) && MovedTo(m, c, r, x, y)
    requires From(r, x, y) < |m| && To(r, x, y) < |m|
    ensures MovedTo(m, c[To(r, x, y) := c[From(r, x, y)]], r, x + 1, y)
  {
    hide Within, From, To;
    ReadsBeforeWrites(r, x, y, |m|);
    ToDistinct(r, x, y, |m|);
    var d := c[To(r, x, y) := c[From(r, x, y)]];
    assert c[From(r, x, y)] == m[From(r, x, y)];
    assert InRect(r, x, y) && Before(x, y, x + 1, y);
    forall k: nat | k < |m| && !HitBefore(r, k, x + 1, y) ensures d[k] == m[k] {
      assert !HitBefore(r, k, x, y);
    }
  }

  lemma {:induction false} RowForward(m: seq<Pixel>, b: seq<Pixel>, r: Rect, n: nat, y: nat)
    requires InSurface(r, |m|) && Forward(r) && Touches(r, |m|) && n <= r.width && y < r.height
    requires MovedTo(m, b, r, 0, y)
    ensures MovedTo(m, RowMoved(b, r, n, y), r, n, y)
  {
    hide Within, MoveFrom, MoveTo, From, To, MovedTo;
    assert |b| == |m| by {
      SameLength(m, b, r, 0, y);
    }
    if n > 0 {
      var x := n - 1;
      RowForward(m, b, r, x, y);
      ForwardTouches(r, x, y, |m|);
      PixelForward(m, RowMoved(b, r, x, y), r, x, y);
    }
  }

  lemma SameLength(m: seq<Pixel>, out: seq<Pixel>, r: Rect, x: nat, y: nat)
    requires MovedTo(m, out, r, x, y)
    ensures |out| == |m|
  {
  }

  lemma RowEnds(m: seq<Pixel>, out: seq<Pixel>, r: Rect, y: nat)
    requires MovedTo(m, out, r, r.width, y)
    ensures MovedTo(m, out, r, 0, y + 1)
  {
    hide From, To;
    assert forall i: nat, j: nat :: InRect(r, i, j) && Before(i, j, 0, y + 1) ==> Before(i, j, r.width, y);
    forall k: nat | k < |m| && !HitBefore(r, k, 0, y + 1) ensures out[k] == m[k] {
      assert !HitBefore(r, k, r.width, y);
    }
  }

  lemma {:induction false} RowsForward(m: seq<Pixel>, r: Rect, rows: nat)
    requires InSurface(r, |m|) && Forward(r) && Touches(r, |m|) && rows <= r.height
    ensures MovedTo(m, Moved(m, r, rows), r, 0, rows)
  {
    hide InSurface, Touches, Forward, RowMoved, MovedTo;
    if rows == 0 {
      NothingMoved(m, r);
    } else {
      RowsForward(m, r, rows - 1);
      RowForward(m, Moved(m, r, rows - 1), r, r.width, rows - 1);
      RowEnds(m, Moved(m, r, rows), r, rows - 1);
    }
  }

  lemma NothingMoved(m: seq<Pixel>, r: Rect)
    ensures MovedTo(m, m, r, 0, 0)
  {
  }

  lemma WholePixels(r: Rect, length: nat)
    requires InSurface(r, length)
    ensures r.width == 0 || r.height == 0 || (r.sourcePitch % 4 == 0 && r.destinationPitch % 4 == 0)
  {
  }

  /** A forward move is a simultaneous copy of the old rectangle, and changes no other pixel. */
  lemma ForwardIsSimultaneous(m: seq<Pixel>, r: Rect)
    requires InSurface(r, |m|) && Forward(r)
    ensures Touches(r, |m|) || r.width == 0 || r.height == 0
    ensures Touches(r, |m|) ==> Copied(m, m, Moved(m, r, r.height), r)
  {
    hide Within, MoveFrom, MoveTo, From, To, Moved;
    WholePixels(r, |m|);
    forall x: nat, y: nat | InRect(r, x, y) ensures MoveFrom(r, x, y) < |m| && MoveTo(r, x, y) < |m| {
      ForwardTouches(r, x, y, |m|);
    }
    if Touches(r, |m|) {
      RowsForward(m, r, r.height);
      assert forall i: nat, j: nat :: InRect(r, i, j) ==> Before(i, j, 0, r.height);
      forall k: nat | k < |m| && !Hit(r, k) ensures Moved(m, r, r.height)[k] == m[k] {
        assert !HitBefore(r, k, 0, r.height);
      }
    }
  }

  // ---- a backward move is never right

  lemma Backward(start: UInt32, size: UInt32, n: nat)
    requires n < size && start + size < U32
    ensures Wrap32(Wrap32(start + size) + Wrap32(0 - n)) == start + size - n
  {
    NoWrap(start + size);
    if n > 0 {
      assert Wrap32(0 - n) == U32 - n by {
        WrapNegative(n);
      }
      WrapAround(start + size - n);
    } else {
      NoWrap(0);
      NoWrap(start + size);
    }
  }

  lemma WrapNegative(n: nat)
    requires 0 < n < U32
    ensures Wrap32(0 - n) == U32 - n
  {
  }

  lemma WrapAround(n: nat)
    requires n < U32
    ensures Wrap32(n + U32) == n
  {
  }

  /** A walk's coordinate: from the first up, or from one past the last down. */
  function Walk(source: nat, destination: nat, size: nat, n: nat): int {
    if source < destination then source + size - n else source + n
  }

  lemma WalksSource(source: UInt32, destination: UInt32, size: UInt32, n: nat)
    requires n < size && source + size < U32
    ensures Wrap32(StartSource(source, destination, size) + Offset(source, destination, n)) == Walk(source, destination, size, n)
  {
    hide Wrap32;
    if source < destination {
      Backward(source, size, n);
    } else {
      NoWrap(n);
      NoWrap(source + n);
    }
  }

  /** The coordinate written: from the first up, or from one more size past the source's end down. */
  function WalkWritten(source: nat, destination: nat, size: nat, n: nat): int {
    if source < destination then source + 2 * size - n else destination + n
  }

  lemma WalksDestination(source: UInt32, destination: UInt32, size: UInt32, n: nat)
    requires n < size && source + 2 * size < U32 && destination + size < U32
    ensures Wrap32(StartDestination(source, destination, size) + Offset(source, destination, n))
         == WalkWritten(source, destination, size, n)
  {
    hide Wrap32;
    if source < destination {
      NoWrap(source + size);
      NoWrap(source + size + size);
      Backward(source + size, size, n);
    } else {
      NoWrap(n);
      NoWrap(destination + n);
    }
  }

  lemma RowWalked(pitch: UInt32, start: nat, row: nat)
    requires pitch % 4 == 0 && Wrap32(start) == row && row * pitch < U32
    ensures Row(pitch, start) == row * (pitch / 4)
  {
    hide Wrap32;
    RowOffset(row, pitch);
  }

  /** Where a move reads pixel `x`, `y`, as long as nothing wraps. */
  lemma ReadPlace(r: Rect, x: nat, y: nat)
    requires InRect(r, x, y) && r.sourcePitch % 4 == 0
    requires r.sourceX + r.width < U32 && r.sourceY + r.height < U32
    requires Walk(r.sourceY, r.destinationY, r.height, y) * r.sourcePitch < U32
    ensures MoveFrom(r, x, y) == Walk(r.sourceY, r.destinationY, r.height, y) * (r.sourcePitch / 4)
                                 + Walk(r.sourceX, r.destinationX, r.width, x)
  {
    hide Wrap32, Row, StartSource, Offset, Walk;
    WalksSource(r.sourceX, r.destinationX, r.width, x);
    WalksSource(r.sourceY, r.destinationY, r.height, y);
    RowWalked(r.sourcePitch, StartSource(r.sourceY, r.destinationY, r.height) + Offset(r.sourceY, r.destinationY, y),
              Walk(r.sourceY, r.destinationY, r.height, y));
  }

  /** And where it writes it. */
  lemma WritePlace(r: Rect, x: nat, y: nat)
    requires InRect(r, x, y) && r.destinationPitch % 4 == 0
    requires r.sourceX + 2 * r.width < U32 && r.destinationX + r.width < U32
    requires r.sourceY + 2 * r.height < U32 && r.destinationY + r.height < U32
    requires WalkWritten(r.sourceY, r.destinationY, r.height, y) * r.destinationPitch < U32
    ensures MoveTo(r, x, y) == WalkWritten(r.sourceY, r.destinationY, r.height, y) * (r.destinationPitch / 4)
                               + WalkWritten(r.sourceX, r.destinationX, r.width, x)
  {
    hide Wrap32, Row, StartDestination, Offset, WalkWritten;
    WalksDestination(r.sourceX, r.destinationX, r.width, x);
    WalksDestination(r.sourceY, r.destinationY, r.height, y);
    RowWalked(r.destinationPitch, StartDestination(r.sourceY, r.destinationY, r.height) + Offset(r.sourceY, r.destinationY, y),
              WalkWritten(r.sourceY, r.destinationY, r.height, y));
  }

  lemma RowOf(pitch: UInt32, y: nat, rows: nat)
    requires pitch % 4 == 0 && y <= rows && rows * pitch < U32 && y < U32
    ensures Row(pitch, y) == y * (pitch / 4)
  {
    hide Wrap32;
    NoWrap(y);
    Mul(y, rows, pitch);
    RowOffset(y, pitch);
  }

  lemma LaterIndex(columns: nat, x: nat, y: nat, x': nat, y': nat)
    requires columns > 0 && x <= x' && y <= y' && (x < x' || y < y')
    ensures Index(columns, x, y) < Index(columns, x', y')
  {
    Mul(y, y', columns);
    if y < y' {
      Mul(y + 1, y', columns);
      assert (y + 1) * columns == y * columns + columns;
    }
  }

  /** Rows up to the source's end start within 32 bits. */
  lemma RowsCounted(r: Rect, surface: nat)
    requires InSurface(r, surface) && 4 * surface < U32 && r.width > 0 && r.height > 0
    ensures (r.sourceY + r.height) * r.sourcePitch < U32 && r.sourcePitch >= 4 && r.sourcePitch % 4 == 0
    ensures r.sourceX + r.width < U32 && r.sourceY + r.height < U32
  {
    var columns, rows := r.sourcePitch / 4, r.sourceY + r.height;
    assert r.sourcePitch == 4 * columns;
    assert rows * r.sourcePitch == 4 * (rows * columns);
    Mul(1, r.sourcePitch, rows);
  }

  lemma MoveFromIs(r: Rect, x: nat, y: nat, surface: nat)
    requires InSurface(r, surface) && 4 * surface < U32 && InRect(r, x, y)
    ensures var cx, cy := Walk(r.sourceX, r.destinationX, r.width, x), Walk(r.sourceY, r.destinationY, r.height, y);
            MoveFrom(r, x, y) == Index(r.sourcePitch / 4, cx, cy)
  {
    hide Wrap32, Row, Within;
    RowsCounted(r, surface);
    WalksSource(r.sourceX, r.destinationX, r.width, x);
    WalksSource(r.sourceY, r.destinationY, r.height, y);
    RowOfWrapped(r, y);
    RowOf(r.sourcePitch, Walk(r.sourceY, r.destinationY, r.height, y), r.sourceY + r.height);
  }

  /** The pixel a backward move should read last is the one it never reads. */
  lemma NeverReadsFirst(r: Rect, x: nat, y: nat, surface: nat)
    requires InSurface(r, surface) && 4 * surface < U32 && !Forward(r) && InRect(r, x, y)
    ensures MoveFrom(r, x, y) > From(r, 0, 0)
  {
    hide InSurface, MoveFrom, Index;
    RowsCounted(r, surface);
    MoveFromIs(r, x, y, surface);
    LaterIndex(r.sourcePitch / 4, r.sourceX, r.sourceY,
               Walk(r.sourceX, r.destinationX, r.width, x), Walk(r.sourceY, r.destinationY, r.height, y));
  }

  /** A row's place is its wrapped coordinate's. */
  lemma RowOfWrapped(r: Rect, y: nat)
    ensures var row := StartSource(r.sourceY, r.destinationY, r.height) + Offset(r.sourceY, r.destinationY, y);
            Row(r.sourcePitch, row) == Row(r.sourcePitch, Wrap32(row))
  {
    var row := StartSource(r.sourceY, r.destinationY, r.height) + Offset(r.sourceY, r.destinationY, y);
    WrapTwice(row);
    hide Wrap32;
  }

  lemma WrapTwice(x: int)
    ensures Wrap32(Wrap32(x)) == Wrap32(x)
  {
    NoWrap(Wrap32(x));
  }

  ghost predicate ZeroBut(m: seq<Pixel>, mark: nat) {
    forall k: nat :: k < |m| && k != mark ==> m[k] == 0
  }

  lemma {:induction false} RowLeavesZero(m: seq<Pixel>, r: Rect, n: nat, y: nat, mark: nat)
    requires Touches(r, |m|) && n <= r.width && y < r.height && ZeroBut(m, mark)
    requires forall x: nat :: InRect(r, x, y) ==> MoveFrom(r, x, y) != mark
    ensures ZeroBut(RowMoved(m, r, n, y), mark)
  {
    hide MoveFrom, MoveTo;
    if n > 0 {
      RowLeavesZero(m, r, n - 1, y, mark);
      assert InRect(r, n - 1, y);
    }
  }

  lemma {:induction false} MoveLeavesZero(m: seq<Pixel>, r: Rect, rows: nat, mark: nat)
    requires Touches(r, |m|) && rows <= r.height && ZeroBut(m, mark)
    requires forall x: nat, y: nat :: InRect(r, x, y) ==> MoveFrom(r, x, y) != mark
    ensures ZeroBut(Moved(m, r, rows), mark)
  {
    hide MoveFrom, MoveTo, RowMoved, ZeroBut, Touches;
    if rows > 0 {
      MoveLeavesZero(m, r, rows - 1, mark);
      RowLeavesZero(Moved(m, r, rows - 1), r, r.width, rows - 1, mark);
    }
  }

  /** All zero, but one at `mark`. */
  function Marked(length: nat, mark: nat): (m: seq<Pixel>)
    ensures |m| == length
  {
    seq<Pixel>(length, i => if i == mark then 1 else 0)
  }

  /** A move that is not forward leaves the marked corner out of the destination. */
  lemma BackwardIsWrong(r: Rect, surface: nat, length: nat)
    requires InSurface(r, surface) && 4 * surface < U32 && surface <= length && Touches(r, length)
    requires !Forward(r) && r.width > 0 && r.height > 0
    ensures var m := Marked(length, From(r, 0, 0)); !Copied(m, m, Moved(m, r, r.height), r)
  {
    hide MoveFrom, MoveTo, Moved;
    var mark := From(r, 0, 0);
    var m := Marked(length, mark);
    forall x: nat, y: nat | InRect(r, x, y) ensures MoveFrom(r, x, y) != mark {
      NeverReadsFirst(r, x, y, surface);
    }
    MoveLeavesZero(m, r, r.height, mark);
    assert InRect(r, 0, 0);
    if To(r, 0, 0) == mark {
      SameIndex(r.sourcePitch / 4, r.sourceX, r.sourceY, r.destinationX, r.destinationY);
      assert false;
    }
  }

  lemma {:induction false} EmptyMoves(m: seq<Pixel>, r: Rect, rows: nat)
    requires Touches(r, |m|) && rows <= r.height && r.width == 0
    ensures Moved(m, r, rows) == m
  {
    if rows > 0 {
      EmptyMoves(m, r, rows - 1);
    }
  }

  lemma SurfaceInMemory(r: Rect, surface: nat, length: nat)
    requires InSurface(r, surface) && surface <= length
    ensures InSurface(r, length)
  {
  }

  /** A move within a surface is right, whatever the surface shows, exactly when the rectangle is empty or
      goes forward both ways. */
  lemma MoveIsRightIff(r: Rect, surface: nat, length: nat)
    requires InSurface(r, surface) && 4 * surface < U32 && surface <= length && Touches(r, length)
    ensures (forall m: seq<Pixel> :: |m| == length ==> Copied(m, m, Moved(m, r, r.height), r))
       <==> EmptyOrForward(r)
  {
    hide InSurface, Touches, Moved, Copied;
    if EmptyOrForward(r) {
      SurfaceInMemory(r, surface, length);
      forall m: seq<Pixel> | |m| == length ensures Copied(m, m, Moved(m, r, r.height), r) {
        if Forward(r) {
          ForwardIsSimultaneous(m, r);
        } else {
          EmptyIsRight(m, r);
        }
      }
    } else {
      BackwardIsWrong(r, surface, length);
      assert |Marked(length, From(r, 0, 0))| == length;
    }
  }

  lemma EmptyIsRight(m: seq<Pixel>, r: Rect)
    requires Touches(r, |m|) && (r.width == 0 || r.height == 0)
    ensures Copied(m, m, Moved(m, r, r.height), r)
  {
    if r.width == 0 {
      EmptyMoves(m, r, r.height);
    }
  }
}
