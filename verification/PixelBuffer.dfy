/**
 The pixel buffer as the source has it: an object whose bytes are drawn on in place
 (src/libply-splash-core/ply-pixel-buffer.c).  Every method is proved against its
 meaning on values in Canvas and Pictures.
 */
module PixelBuffers {
  import opened Base
  import opened Arithmetic
  import opened Pixels
  import opened Rectangles
  import opened Canvas
  import opened Gradients
  import opened Pictures

  /** Drawing goes row by row: the points before (column, row) are done. */
  predicate IsDone(area: Rectangle, row: int, column: int, p: Point) {
    Contains(area, p.x, p.y) && (p.y < row || (p.y == row && p.x < column))
  }

  function HalfDrawnCell(b: Buffer, area: Rectangle, ink: Ink, row: int, column: int, i: nat): Pixel
    requires i < |b.memory|
  {
    var p := Place(b, i);
    if IsDone(area, row, column, p) then Color(ink, p, b.memory[i]) else b.memory[i]
  }

  /** Memory once the points before (column, row) are drawn. */
  function HalfDrawn(b: Buffer, area: Rectangle, ink: Ink, row: int, column: int): (m: seq<Pixel>)
    ensures |m| == |b.memory|
  {
    seq(|b.memory|, i requires 0 <= i < |b.memory| => HalfDrawnCell(b, area, ink, row, column, i))
  }

  lemma NothingIsDrawn(b: Buffer, area: Rectangle, ink: Ink)
    ensures HalfDrawn(b, area, ink, area.y, area.x) == b.memory
  {
  }

  lemma RowIsDrawn(b: Buffer, area: Rectangle, ink: Ink, row: int)
    ensures HalfDrawn(b, area, ink, row, area.x + area.width) == HalfDrawn(b, area, ink, row + 1, area.x)
  {
    hide Color, Place;
    var left, right := HalfDrawn(b, area, ink, row, area.x + area.width), HalfDrawn(b, area, ink, row + 1, area.x);
    forall i | 0 <= i < |b.memory| ensures left[i] == right[i] {
      assert IsDone(area, row, area.x + area.width, Place(b, i)) <==> IsDone(area, row + 1, area.x, Place(b, i));
    }
  }

  lemma AllIsDrawn(b: Buffer, area: Rectangle, ink: Ink)
    ensures b.(memory := HalfDrawn(b, area, ink, area.y + area.height, area.x)) == Drawn(b, area, ink)
  {
    hide Color, Place;
    var left, right := HalfDrawn(b, area, ink, area.y + area.height, area.x), Drawn(b, area, ink).memory;
    forall i | 0 <= i < |b.memory| ensures left[i] == right[i] {
      assert right[i] == DrawnCell(b, area, ink, i);
    }
  }

  /** Drawing the next point writes one cell, which was not written before. */
  lemma NextPoint(b: Buffer, area: Rectangle, ink: Ink, row: int, column: int)
    requires Sound(b) && OnPicture(b, Point(column, row)) && Contains(area, column, row)
    ensures var i := Index(b, Point(column, row));
      && 0 <= i < |b.memory|
      && HalfDrawn(b, area, ink, row, column)[i] == b.memory[i]
      && HalfDrawn(b, area, ink, row, column + 1) ==
         HalfDrawn(b, area, ink, row, column)[i := Color(ink, Point(column, row), b.memory[i])]
  {
    hide Color, Place, Index;
    var p := Point(column, row);
    IndexInBounds(b, p);
    var before, after := HalfDrawn(b, area, ink, row, column), HalfDrawn(b, area, ink, row, column + 1);
    var i := Index(b, p);
    forall k | 0 <= k < |b.memory| && k != i ensures after[k] == before[k] {
      PlaceOnPicture(b, k);
      assert Place(b, k) != p;
    }
  }

  /** The same for the buffer as it is when the point's turn comes. */
  lemma BeforeNextPoint(b: Buffer, area: Rectangle, ink: Ink, row: int, column: int)
    requires Sound(b) && IsInside(b, area) && area.x <= column < area.x + area.width && area.y <= row < area.y + area.height
    ensures var p := Point(column, row); var now := b.(memory := HalfDrawn(b, area, ink, row, column));
      && Sound(now) && OnPicture(now, p) && 0 <= Index(now, p) < |now.memory|
      && HalfDrawn(b, area, ink, row, column + 1) ==
         now.memory[Index(now, p) := Color(ink, p, now.memory[Index(now, p)])]
  {
    hide HalfDrawn, Color;
    assert Contains(area, column, row);
    NextPoint(b, area, ink, row, column);
  }

  ghost predicate IsInside(b: Buffer, area: Rectangle) {
    forall x, y :: Contains(area, x, y) ==> OnPicture(b, Point(x, y))
  }

  lemma CroppedInside(b: Buffer, mark: bool, fill: Rectangle)
    requires Sound(b)
    ensures var marked := b.(isOpaque := mark);
      Sound(marked) && Cropped(marked, fill) == Cropped(b, fill) && IsInside(marked, Cropped(b, fill))
  {
    var r := Upscaled(fill, b.scale);
    forall x, y | Contains(Clipped(r, b.clips), x, y) ensures OnPicture(b, Point(x, y)) {
      CroppedOnPicture(b, r, Point(x, y));
    }
  }

  lemma FilledIsSound(b: Buffer, area: Option<Rectangle>, pixel: Pixel)
    requires Sound(b)
    ensures Sound(Filled(b, area, pixel))
  {
  }

  lemma SoundAfterDrawing(b: Buffer, area: Rectangle, ink: Ink)
    requires Sound(b)
    ensures Sound(WithDamage(Drawn(b, area, ink), area))
  {
  }

  lemma PartIsInside(b: Buffer, area: Rectangle, part: Rectangle)
    requires IsInside(b, area)
    ensures IsInside(b, Intersect(area, part))
  {
    forall x, y | Contains(Intersect(area, part), x, y) ensures OnPicture(b, Point(x, y)) {
      IntersectIsIntersection(area, part, x, y);
    }
  }

  /** Data that is not interpolated has a pixel for each point that is drawn. */
  ghost predicate HasData(b: Buffer, fillArea: Option<Rectangle>, clip: Option<Rectangle>, data: seq<Pixel>, scale: nat)
    requires scale >= 1
  {
    var fill := if fillArea.None? then b.logicalArea else fillArea.value;
    var area := if fillArea.None? then StampClip(b, Cropped(b, fill), clip, scale) else StampArea(b, fill, clip, scale);
    b.scale == scale ==> Covers(data, fill, area)
  }

  ghost predicate Covers(data: seq<Pixel>, fill: Rectangle, area: Rectangle) {
    forall x, y :: Contains(area, x, y) ==> 0 <= DataIndex(fill, Point(x, y)) < |data|
  }

  /** memcpy */
  method CopyPixels(to: array<Pixel>, toStart: nat, from: array<Pixel>, fromStart: nat, count: nat)
    requires to != from && toStart + count <= to.Length && fromStart + count <= from.Length
    modifies to
    ensures to[..] == old(to[..toStart]) + from[fromStart..fromStart + count] + old(to[toStart + count..])
  {
    var i := 0;
    while i < count
      invariant 0 <= i <= count
      invariant to[..toStart + i] == old(to[..toStart]) + from[fromStart..fromStart + i]
      invariant to[toStart + i..] == old(to[toStart + i..])
    {
      to[toStart + i] := from[fromStart + i];
      i := i + 1;
    }
    assert to[..] == to[..toStart + count] + to[toStart + count..];
  }

  /** On an upright canvas a row of the area is a stretch of memory, and so is the data drawn there. */
  lemma CopiedRow(b: Buffer, area: Rectangle, data: seq<Pixel>, fill: Rectangle, row: int)
    requires Sound(b) && b.rotation.Upright? && IsInside(b, area) && Covers(data, fill, area)
    requires area.y <= row < area.y + area.height && !IsEmpty(area)
    ensures var ink := Copy(data, fill);
      var before, after := HalfDrawn(b, area, ink, row, area.x), HalfDrawn(b, area, ink, row, area.x + area.width);
      var to, from := Index(b, Point(area.x, row)), DataIndex(fill, Point(area.x, row));
      && 0 <= to && to + area.width <= |b.memory| && 0 <= from && from + area.width <= |data|
      && after == before[..to] + data[from..from + area.width] + before[to + area.width..]
  {
    hide HalfDrawn, Place;
    var ink := Copy(data, fill);
    var before, after := HalfDrawn(b, area, ink, row, area.x), HalfDrawn(b, area, ink, row, area.x + area.width);
    var to, from := Index(b, Point(area.x, row)), DataIndex(fill, Point(area.x, row));
    var last := area.x + area.width - 1;
    assert Contains(area, area.x, row) && Contains(area, last, row);
    IndexInBounds(b, Point(area.x, row));
    IndexInBounds(b, Point(last, row));
    var spliced := before[..to] + data[from..from + area.width] + before[to + area.width..];
    forall i | 0 <= i < |b.memory| ensures after[i] == spliced[i] {
      RowCell(b, area, ink, row, i);
    }
  }

  /** A place in rows laid end to end. */
  function Offset(row: int, stride: nat, column: int): int {
    row * stride + column
  }

  lemma CopyOffsets(b: Buffer, area: Rectangle, fill: Rectangle, x: nat, y: nat, row: int)
    requires b.rotation.Upright? && fill.x == area.x - x && fill.y == area.y - y
    ensures Index(b, Point(area.x, area.y + row - y)) == Offset(area.y + row - y, b.area.width, area.x)
    ensures DataIndex(fill, Point(area.x, area.y + row - y)) == Offset(row, fill.width, x)
  {
  }

  /** A cell of the row, or any other cell, once the row is drawn. */
  lemma RowCell(b: Buffer, area: Rectangle, ink: Ink, row: int, i: nat)
    requires Sound(b) && b.rotation.Upright? && IsInside(b, area) && ink.Copy? && i < |b.memory|
    requires area.y <= row < area.y + area.height && area.width > 0
    ensures var to := Index(b, Point(area.x, row));
      HalfDrawn(b, area, ink, row, area.x + area.width)[i] ==
      if to <= i < to + area.width then Datum(ink.data, ink.fill, Point(area.x + i - to, row))
      else HalfDrawn(b, area, ink, row, area.x)[i]
  {
    hide Place, DataIndex, Datum;
    var to := Index(b, Point(area.x, row));
    var p := Place(b, i);
    PlaceOnPicture(b, i);
    if to <= i < to + area.width {
      var q := Point(area.x + i - to, row);
      assert Contains(area, q.x, q.y);
      IndexInBounds(b, q);
      assert p == q;
    }
  }

  // ----- gradients

  /** What a gradient is drawn with. */
  ghost function GradientInk(crop: Rectangle, isUnrolled: bool, start: Pixel, end: Pixel, height: nat): Ink {
    Shading((x: int, y: int) => GradientPixel(crop, isUnrolled, start, end, height, x, y))
  }

  /** A pixel of the gradient is opaque as it is. */
  lemma GradientColor(crop: Rectangle, isUnrolled: bool, start: Pixel, end: Pixel, height: nat, x: int, y: int, backdrop: Pixel)
    requires Contains(crop, x, y) && 0 <= y < height
    ensures var column := if isUnrolled then (x - crop.x) % UNROLLED else x - crop.x;
      Color(GradientInk(crop, isUnrolled, start, end, height), Point(x, y), backdrop) ==
      Shade(start, end, height, y, Times(y - crop.y, PixelsPerRow(crop, isUnrolled)) + column)
  {
    hide AlphaOf, RedOf, GreenOf, BlueOf, Packed, Level, Dithered, Times, Noise;
    var p := GradientPixel(crop, isUnrolled, start, end, height, x, y);
    ShadeIsPacked(start, end, height, y, Times(y - crop.y, PixelsPerRow(crop, isUnrolled)) +
                  if isUnrolled then (x - crop.x) % UNROLLED else x - crop.x);
    ChannelsPacked(p);
  }

  lemma ShadeIsPacked(start: Pixel, end: Pixel, height: nat, row: nat, n: nat)
    requires 1 <= height && row <= height
    ensures AlphaOf(Shade(start, end, height, row, n)) == OPAQUE
  {
    LevelIsBetween(RedOf(start), RedOf(end), height, row);
    LevelIsBetween(GreenOf(start), GreenOf(end), height, row);
    LevelIsBetween(BlueOf(start), BlueOf(end), height, row);
    hide AlphaOf, RedOf, GreenOf, BlueOf, Packed, Level, Dithered, Noise;
    PackedChannels(OPAQUE, Dithered(Level(RedOf(start), RedOf(end), height, row), Noise(3 * n + 1)),
                   Dithered(Level(GreenOf(start), GreenOf(end), height, row), Noise(3 * n + 2)),
                   Dithered(Level(BlueOf(start), BlueOf(end), height, row), Noise(3 * n + 3)));
  }

  /** A stretch of a row, copied to memory, draws its points. */
  lemma StretchIsDrawn(b: Buffer, area: Rectangle, ink: Ink, row: int, column: int, data: seq<Pixel>)
    requires Sound(b) && b.rotation.Upright? && IsInside(b, area) && ink.Shading? && data != []
    requires area.y <= row < area.y + area.height && area.x <= column && column + |data| <= area.x + area.width
    requires forall k :: 0 <= k < |data| ==> Color(ink, Point(column + k, row), 0) == data[k]
    ensures var before, after := HalfDrawn(b, area, ink, row, column), HalfDrawn(b, area, ink, row, column + |data|);
      var to := Index(b, Point(column, row));
      && 0 <= to && to + |data| <= |b.memory|
      && after == before[..to] + data + before[to + |data|..]
  {
    hide HalfDrawn, Place;
    var before, after := HalfDrawn(b, area, ink, row, column), HalfDrawn(b, area, ink, row, column + |data|);
    var to := Index(b, Point(column, row));
    var last := column + |data| - 1;
    assert Contains(area, column, row) && Contains(area, last, row);
    IndexInBounds(b, Point(column, row));
    IndexInBounds(b, Point(last, row));
    var spliced := before[..to] + data + before[to + |data|..];
    forall i | 0 <= i < |b.memory| ensures after[i] == spliced[i] {
      StretchCell(b, area, ink, row, column, |data|, i);
    }
  }

  lemma StretchCell(b: Buffer, area: Rectangle, ink: Ink, row: int, column: int, count: nat, i: nat)
    requires Sound(b) && b.rotation.Upright? && IsInside(b, area) && ink.Shading? && i < |b.memory|
    requires area.y <= row < area.y + area.height && area.x <= column && column + count <= area.x + area.width
    ensures var to := Index(b, Point(column, row));
      HalfDrawn(b, area, ink, row, column + count)[i] ==
      if to <= i < to + count then Color(ink, Point(column + i - to, row), 0) else HalfDrawn(b, area, ink, row, column)[i]
  {
    hide Place, MadeOpaque;
    var to := Index(b, Point(column, row));
    var p := Place(b, i);
    PlaceOnPicture(b, i);
    if to <= i < to + count {
      var q := Point(column + i - to, row);
      assert Contains(area, q.x, q.y);
      IndexInBounds(b, q);
      assert p == q;
    }
  }

  /** An area without points has nothing to draw. */
  lemma EmptyIsDrawn(b: Buffer, area: Rectangle, ink: Ink, row: int, column: int)
    requires IsEmpty(area)
    ensures HalfDrawn(b, area, ink, row, column) == b.memory && Drawn(b, area, ink) == b
  {
    hide Place, Color;
    assert Drawn(b, area, ink).memory == b.memory;
  }

  lemma InsideIsPositive(b: Buffer, area: Rectangle)
    requires Sound(b) && IsInside(b, area) && !IsEmpty(area)
    ensures 0 <= area.x && 0 <= area.y && area.y + area.height <= b.area.height && area.x + area.width <= b.area.width
  {
    assert Contains(area, area.x, area.y) && OnPicture(b, Point(area.x, area.y));
    assert Contains(area, area.x + area.width - 1, area.y + area.height - 1);
    assert OnPicture(b, Point(area.x + area.width - 1, area.y + area.height - 1));
  }

  /** How many rows of the area are above `y`. */
  function RowsAbove(area: Rectangle, y: int): nat {
    if y <= area.y then 0 else if y >= area.y + area.height then area.height else y - area.y
  }

  /** A channel goes on to the next row; adding in 32 bits loses nothing. */
  lemma NextLevel(start: byte, end: byte, height: nat, row: nat)
    requires height >= 1 && row < height
    ensures 0 <= Level(start, end, height, row) < 0x1_0000_0000
    ensures (Level(start, end, height, row) + StepOf(start, end, height)) % 0x1_0000_0000 == Level(start, end, height, row + 1)
  {
    LevelIsBetween(start, end, height, row);
    LevelIsBetween(start, end, height, row + 1);
    Distributes(row, 1, StepOf(start, end, height));
    OneMoreTime(StepOf(start, end, height), row);
  }

  lemma OneMoreTime(a: int, n: int)
    ensures Times(a, n + 1) == Times(a, n) + a && Times(a, 0) == 0
    ensures Times(n + 1, a) == Times(n, a) + a && Times(0, a) == 0
  {
  }

  lemma CopyIsCovered(canvas: Buffer, source: Buffer, xOffset: int, yOffset: int, clip: Option<Rectangle>)
    requires Sound(canvas) && Sound(source) && Scaled(source) && canvas.scale == source.scale
    ensures var crop := Pictures.CopyArea(canvas, source, xOffset, yOffset, clip);
      && IsInside(canvas, crop) && Covers(source.memory, Placed(source, xOffset, yOffset, canvas.scale), crop)
      && (!IsEmpty(crop) ==> crop.x >= Times(xOffset, canvas.scale) && crop.y >= Times(yOffset, canvas.scale))
  {
    hide DataIndex, Times, Cropped, Truncated;
    var crop := Pictures.CopyArea(canvas, source, xOffset, yOffset, clip);
    forall x, y | Contains(crop, x, y)
      ensures OnPicture(canvas, Point(x, y))
      ensures 0 <= DataIndex(Placed(source, xOffset, yOffset, canvas.scale), Point(x, y)) < |source.memory|
    {
      CopyReadsInBounds(canvas, source, xOffset, yOffset, clip, Point(x, y));
    }
    if !IsEmpty(crop) {
      var logical := Rectangle(xOffset, yOffset, source.logicalArea.width, source.logicalArea.height);
      if clip.Some? {
        IntersectIsIntersection(Cropped(canvas, logical), clip.value, crop.x, crop.y);
      }
      CroppedIsSmaller(canvas, logical, Point(crop.x, crop.y));
    }
  }

  lemma CroppedIsSmaller(b: Buffer, r: Rectangle, p: Point)
    requires Sound(b) && Contains(Cropped(b, r), p.x, p.y)
    ensures Contains(Upscaled(r, b.scale), p.x, p.y)
  {
    CroppedOnPicture(b, Upscaled(r, b.scale), p);
  }

  lemma StampIsCovered(canvas: Buffer, source: Buffer, xOffset: int, yOffset: int, clip: Option<Rectangle>)
    requires Sound(canvas) && Sound(source) && Scaled(source)
    ensures HasData(canvas, Some(Placed(source, xOffset, yOffset, source.scale)), clip, source.memory, source.scale)
  {
    hide DataIndex, Times, Cropped, Truncated, Upscaled, Downscaled, Pictures.CopyArea;
    if canvas.scale == source.scale {
      var fill := Placed(source, xOffset, yOffset, source.scale);
      SameAreaOnBothPaths(canvas, source, xOffset, yOffset, None);
      CopyIsCovered(canvas, source, xOffset, yOffset, None);
      var whole, area := StampArea(canvas, fill, None, source.scale), StampArea(canvas, fill, clip, source.scale);
      forall x, y | Contains(area, x, y) ensures Contains(whole, x, y) {
        if clip.Some? {
          IntersectIsIntersection(whole, Upscaled(Downscaled(clip.value, source.scale), canvas.scale), x, y);
        }
      }
    }
  }

  lemma BlankIsUpright(b: Buffer)
    requires Sound(b)
    ensures var c := Blank(b.area.width, b.area.height, Upright);
      Sound(c) && c.area == b.area && |c.memory| == |b.memory| && IsInside(c, b.area) && b.scale >= 1 && b.area.x == 0 && b.area.y == 0
  {
  }

  /** The picture, taken as data, gives each point its pixel. */
  lemma PictureAt(b: Buffer, p: Point)
    requires Sound(b) && OnPicture(b, p)
    ensures Datum(Picture(b), b.area, p) == Get(b, p)
  {
    hide Place;
    var upright := b.(rotation := Upright);
    IndexInBounds(upright, p);
    assert DataIndex(b.area, p) == Index(upright, p);
  }

  lemma PictureIsDrawn(b: Buffer, c: Buffer)
    requires Sound(b) && Sound(c) && c.rotation.Upright? && c.area == b.area
    ensures Drawn(c, b.area, Copy(Picture(b), b.area)).memory == Picture(b)
  {
    hide Place, Datum, Index;
    var d := Drawn(c, b.area, Copy(Picture(b), b.area));
    forall i | 0 <= i < |b.memory| ensures d.memory[i] == Picture(b)[i] {
      PlaceOnPicture(c, i);
      var p := Place(c, i);
      PictureAt(b, p);
      assert d.memory[i] == DrawnCell(c, b.area, Copy(Picture(b), b.area), i);
      SameShapeSamePlaces(b.(rotation := Upright), c, p);
      assert Picture(b)[i] == PictureCell(b, i);
    }
  }

  /** fill_with_gradient as a value. */
  ghost function Graded(b: Buffer, fillArea: Option<Rectangle>, start: Pixel, end: Pixel): Buffer {
    var crop := Cropped(b, if fillArea.None? then b.logicalArea else fillArea.value);
    var isUnrolled := crop.width >= UNROLLED && b.rotation.Upright?;
    Shaded(b, fillArea, GradientInk(crop, isUnrolled, start, end, b.area.height).shade)
  }

  lemma GradientIs(b: Buffer, fillArea: Option<Rectangle>, start: Pixel, end: Pixel)
    ensures var crop := Cropped(b, if fillArea.None? then b.logicalArea else fillArea.value);
      var isUnrolled := crop.width >= UNROLLED && b.rotation.Upright?;
      Graded(b, fillArea, start, end) == WithDamage(Drawn(b, crop, GradientInk(crop, isUnrolled, start, end, b.area.height)), crop)
  {
    hide Cropped, Drawn;
  }

  lemma InkIsShading(crop: Rectangle, start: Pixel, end: Pixel, height: nat)
    ensures GradientInk(crop, true, start, end, height).Shading?
  {
  }

  lemma ShadedStretch(b: Buffer, crop: Rectangle, y: nat, shaded: seq<Pixel>, column: nat, count: nat, start: Pixel, end: Pixel)
    requires Sound(b) && IsInside(b, crop) && crop.y <= y < crop.y + crop.height && y < b.area.height
    requires b.rotation.Upright? && column % UNROLLED == 0 && column + count <= crop.width && 0 < count <= UNROLLED == |shaded|
    requires forall k :: 0 <= k < UNROLLED ==> shaded[k] == Shade(start, end, b.area.height, y, Times(y - crop.y, UNROLLED) + k)
    ensures var ink := GradientInk(crop, true, start, end, b.area.height);
      var before, after := HalfDrawn(b, crop, ink, y, crop.x + column), HalfDrawn(b, crop, ink, y, crop.x + column + count);
      var to := Offset(y, b.area.width, crop.x + column);
      && 0 <= to && to + count <= |b.memory|
      && after == before[..to] + shaded[..count] + before[to + count..]
  {
    hide Sound, HalfDrawn, IsInside, OnPicture, Color, GradientInk, Times, Shade, Index;
    var ink, data := GradientInk(crop, true, start, end, b.area.height), shaded[..count];
    forall k | 0 <= k < count ensures Color(ink, Point(crop.x + column + k, y), 0) == data[k] {
      GradientColor(crop, true, start, end, b.area.height, crop.x + column + k, y, 0);
      ColumnInBlock(column, k);
    }
    InkIsShading(crop, start, end, b.area.height);
    UprightOffset(b, crop.x + column, y);
    StretchIsDrawn(b, crop, ink, y, crop.x + column, data);
  }

  lemma ColumnInBlock(column: nat, k: nat)
    requires column % UNROLLED == 0 && k < UNROLLED
    ensures (column + k) % UNROLLED == k
  {
  }

  lemma UprightOffset(b: Buffer, x: int, y: int)
    requires b.rotation.Upright?
    ensures Index(b, Point(x, y)) == Offset(y, b.area.width, x)
  {
  }

  lemma ThreeNoises(n: nat)
    ensures Noise(3 * n + 1) == Randomized(Noise(3 * n)) && Noise(3 * n + 2) == Randomized(Noise(3 * n + 1))
    ensures Noise(3 * n + 3) == Randomized(Noise(3 * n + 2)) && Noise(3 * (n + 1)) == Noise(3 * n + 3)
  {
    hide Randomized;
    assert 3 * (n + 1) == 3 * n + 3;
  }

  lemma ShadeIs(start: Pixel, end: Pixel, height: nat, row: nat, n: nat)
    requires 1 <= height && row <= height
    ensures 0 <= Level(RedOf(start), RedOf(end), height, row) && 0 <= Level(GreenOf(start), GreenOf(end), height, row)
    ensures 0 <= Level(BlueOf(start), BlueOf(end), height, row)
    ensures Shade(start, end, height, row, n) ==
            Packed(OPAQUE, Dithered(Level(RedOf(start), RedOf(end), height, row), Noise(3 * n + 1)),
                   Dithered(Level(GreenOf(start), GreenOf(end), height, row), Noise(3 * n + 2)),
                   Dithered(Level(BlueOf(start), BlueOf(end), height, row), Noise(3 * n + 3)))
  {
    LevelIsBetween(RedOf(start), RedOf(end), height, row);
    LevelIsBetween(GreenOf(start), GreenOf(end), height, row);
    LevelIsBetween(BlueOf(start), BlueOf(end), height, row);
    hide AlphaOf, RedOf, GreenOf, BlueOf, Packed, Level, Dithered, Noise;
  }

  lemma FirstRow(b: Buffer, crop: Rectangle, ink: Ink, start: Pixel, end: Pixel, height: nat, perRow: nat)
    requires Sound(b) && IsInside(b, crop) && height >= 1 && (crop.width == 0 ==> perRow == 0)
    ensures Level(RedOf(start), RedOf(end), height, 0) == RedOf(start) * UNIT
    ensures Level(GreenOf(start), GreenOf(end), height, 0) == GreenOf(start) * UNIT
    ensures Level(BlueOf(start), BlueOf(end), height, 0) == BlueOf(start) * UNIT
    ensures Noise(3 * Times(RowsAbove(crop, 0), perRow)) == FIRST_NOISE
    ensures HalfDrawn(b, crop, ink, crop.y + RowsAbove(crop, 0), crop.x) == b.memory
  {
    hide RedOf, GreenOf, BlueOf, HalfDrawn, StepOf;
    OneMoreTime(StepOf(RedOf(start), RedOf(end), height), 0);
    OneMoreTime(StepOf(GreenOf(start), GreenOf(end), height), 0);
    OneMoreTime(StepOf(BlueOf(start), BlueOf(end), height), 0);
    OneMoreTime(perRow, 0);
    if IsEmpty(crop) {
      OneMoreTime(RowsAbove(crop, 0), 0);
      EmptyIsDrawn(b, crop, ink, crop.y + RowsAbove(crop, 0), crop.x);
    } else {
      InsideIsPositive(b, crop);
      NothingIsDrawn(b, crop, ink);
    }
  }

  lemma LastRow(b: Buffer, crop: Rectangle, ink: Ink)
    requires Sound(b) && IsInside(b, crop)
    ensures b.(memory := HalfDrawn(b, crop, ink, crop.y + RowsAbove(crop, b.area.height), crop.x)) == Drawn(b, crop, ink)
  {
    hide HalfDrawn, Drawn;
    if IsEmpty(crop) {
      EmptyIsDrawn(b, crop, ink, crop.y + RowsAbove(crop, b.area.height), crop.x);
    } else {
      InsideIsPositive(b, crop);
      AllIsDrawn(b, crop, ink);
    }
  }

  class PixelBuffer {
    var bytes: array<Pixel>
    var area: Rectangle
    var logicalArea: Rectangle
    var clipAreas: seq<Rectangle>
    var updatedAreas: seq<Rectangle>
    var isOpaque: bool
    var deviceScale: nat
    var deviceRotation: Rotation

    ghost function Snapshot(): Buffer
      reads this, bytes
    {
      Buffer(bytes[..], area, logicalArea, clipAreas, updatedAreas, isOpaque, deviceScale, deviceRotation)
    }

    ghost predicate Valid()
      reads this, bytes
    {
      Sound(Snapshot())
    }

    /** ply_pixel_buffer_new_with_device_rotation */
    constructor (width: nat, height: nat, rotation: Rotation)
      ensures Valid() && Snapshot() == Blank(width, height, rotation) && fresh(bytes)
    {
      var w, h := width, height;
      if rotation.Clockwise? || rotation.CounterClockwise? {
        w, h := h, w;
      }
      bytes := new Pixel[Cells(Rectangle(0, 0, w, h))](_ => 0);
      area := Rectangle(0, 0, w, h);
      logicalArea := Rectangle(0, 0, w, h);
      clipAreas := [Rectangle(0, 0, w, h)];
      updatedAreas := [];
      isOpaque := false;
      deviceScale := 1;
      deviceRotation := rotation;
    }

    method SetPixel(x: int, y: int, pixel: Pixel)
      requires Valid() && OnPicture(Snapshot(), Point(x, y))
      modifies bytes
      ensures 0 <= Index(old(Snapshot()), Point(x, y)) < bytes.Length
      ensures bytes[..] == old(bytes[..])[Index(old(Snapshot()), Point(x, y)) := pixel]
    {
      IndexInBounds(Snapshot(), Point(x, y));
      match deviceRotation {
        case Upright =>
          bytes[y * area.width + x] := pixel;
        case UpsideDown =>
          var x', y' := area.width - 1 - x, area.height - 1 - y;
          bytes[y' * area.width + x'] := pixel;
        case Clockwise =>
          var y' := area.height - 1 - y;
          bytes[x * area.height + y'] := pixel;
        case CounterClockwise =>
          var x' := area.width - 1 - x;
          bytes[x' * area.height + y] := pixel;
      }
    }

    method GetPixel(x: int, y: int) returns (pixel: Pixel)
      requires Valid() && OnPicture(Snapshot(), Point(x, y))
      ensures pixel == Get(Snapshot(), Point(x, y))
    {
      IndexInBounds(Snapshot(), Point(x, y));
      match deviceRotation {
        case Upright =>
          return bytes[y * area.width + x];
        case UpsideDown =>
          var x', y' := area.width - 1 - x, area.height - 1 - y;
          return bytes[y' * area.width + x'];
        case Clockwise =>
          var y' := area.height - 1 - y;
          return bytes[x * area.height + y'];
        case CounterClockwise =>
          var x' := area.width - 1 - x;
          return bytes[x' * area.height + y];
      }
    }

    method BlendValueAtPixel(x: int, y: int, pixel: Pixel)
      requires Valid() && OnPicture(Snapshot(), Point(x, y))
      modifies bytes
      ensures var i := Index(old(Snapshot()), Point(x, y));
        0 <= i < bytes.Length && bytes[..] == old(bytes[..])[i := Inked(pixel, old(bytes[..])[i])]
    {
      hide Index, Blended, Sound;
      IndexInBounds(Snapshot(), Point(x, y));
      var value := pixel;
      if AlphaOf(pixel) != OPAQUE {
        var backdrop := GetPixel(x, y);
        value := Blended(pixel, backdrop);
      }
      SetPixel(x, y, value);
    }

    /** crop_area_to_clip_area: scaled, then cut by each clip in turn. */
    method CropAreaToClipArea(fillArea: Rectangle) returns (cropped: Rectangle)
      ensures cropped == Cropped(Snapshot(), fillArea)
    {
      cropped := Upscaled(fillArea, deviceScale);
      var i := 0;
      while i < |clipAreas|
        invariant 0 <= i <= |clipAreas|
        invariant Clipped(cropped, clipAreas[i..]) == Cropped(Snapshot(), fillArea)
      {
        assert clipAreas[i..][1..] == clipAreas[i + 1..];
        cropped := Intersect(cropped, clipAreas[i]);
        i := i + 1;
      }
    }

    /** The region is kept as the list of rectangles added to it. */
    method AddUpdatedArea(updated: Rectangle)
      modifies `updatedAreas
      ensures updatedAreas == old(updatedAreas) + [Damaged(old(Snapshot()), updated)]
    {
      var damage := match deviceRotation
        case Upright => updated
        case UpsideDown =>
          updated.(x := area.width - updated.width - updated.x, y := area.height - updated.height - updated.y)
        case Clockwise =>
          Rectangle(area.height - updated.height - updated.y, updated.x, updated.height, updated.width)
        case CounterClockwise =>
          Rectangle(updated.y, area.width - updated.width - updated.x, updated.height, updated.width);
      updatedAreas := updatedAreas + [damage];
    }

    /** fill_area_with_pixel_value */
    method FillAreaWithPixelValue(fillArea: Option<Rectangle>, pixel: Pixel)
      requires Valid()
      modifies this, bytes
      ensures Valid() && bytes == old(bytes)
      ensures Snapshot() == Filled(old(Snapshot()), fillArea, pixel)
    {
      hide Inked, Index, Cropped, Sound, Drawn, HalfDrawn, IsInside, OnPicture, Damaged, AlphaOf;
      var fill := if fillArea.None? then logicalArea else fillArea.value;
      var cropped := CropAreaToClipArea(fill);
      if fill == area && AlphaOf(pixel) == OPAQUE {
        isOpaque := true;
      }
      ghost var b, ink := Snapshot(), Solid(pixel);
      CroppedInside(old(Snapshot()), isOpaque, fill);
      NothingIsDrawn(b, cropped, ink);
      var row := cropped.y;
      while row < cropped.y + cropped.height
        modifies bytes
        invariant cropped.y <= row <= cropped.y + cropped.height
        invariant Snapshot() == b.(memory := HalfDrawn(b, cropped, ink, row, cropped.x))
      {
        var column := cropped.x;
        while column < cropped.x + cropped.width
          modifies bytes
          invariant cropped.x <= column <= cropped.x + cropped.width
          invariant Snapshot() == b.(memory := HalfDrawn(b, cropped, ink, row, column))
        {
          BeforeNextPoint(b, cropped, ink, row, column);
          BlendValueAtPixel(column, row, pixel);
          column := column + 1;
        }
        RowIsDrawn(b, cropped, ink, row);
        row := row + 1;
      }
      AllIsDrawn(b, cropped, ink);
      AddUpdatedArea(cropped);
      FilledIsSound(old(Snapshot()), fillArea, pixel);
    }

    method PushClipArea(clip: Rectangle)
      modifies `clipAreas
      ensures Snapshot() == Pushed(old(Snapshot()), clip)
    {
      clipAreas := clipAreas + [Upscaled(clip, deviceScale)];
    }

    method PopClipArea()
      requires |clipAreas| >= 1
      modifies `clipAreas
      ensures Snapshot() == Popped(old(Snapshot()))
    {
      clipAreas := clipAreas[..|clipAreas| - 1];
    }

    /** The body of the loop below: nothing is written where the data is transparent. */
    method StampPixel(x: int, y: int, pixel: Pixel, opacity: byte)
      requires Valid() && OnPicture(Snapshot(), Point(x, y))
      modifies bytes
      ensures var i := Index(old(Snapshot()), Point(x, y));
        0 <= i < bytes.Length && bytes[..] == old(bytes[..])[i := Stamped(pixel, opacity, old(bytes[..])[i])]
    {
      hide Inked, Translucent, Index, Sound, OnPicture;
      IndexInBounds(Snapshot(), Point(x, y));
      if AlphaOf(pixel) != 0 {
        BlendValueAtPixel(x, y, Translucent(pixel, opacity));
      }
    }

    /** Where data is drawn: the area at device scale, cut by the clips and the extra clip. */
    method DataCrop(fillArea: Option<Rectangle>, clip: Option<Rectangle>, scale: nat) returns (cropped: Rectangle)
      requires Valid() && scale >= 1
      ensures cropped == (if fillArea.None? then StampClip(Snapshot(), Cropped(Snapshot(), logicalArea), clip, scale)
                          else StampArea(Snapshot(), fillArea.value, clip, scale))
      ensures IsInside(Snapshot(), cropped)
    {
      hide Cropped, Sound, IsInside, Upscaled, Downscaled, Intersect;
      var logicalFill := if fillArea.None? then logicalArea else Downscaled(fillArea.value, scale);
      cropped := CropAreaToClipArea(logicalFill);
      CroppedInside(Snapshot(), isOpaque, logicalFill);
      if clip.Some? {
        var deviceClip := Upscaled(Downscaled(clip.value, scale), deviceScale);
        PartIsInside(Snapshot(), cropped, deviceClip);
        cropped := Intersect(cropped, deviceClip);
      }
    }

    /** fill_with_argb32_data_at_opacity_with_clip_and_scale; `sample` interpolates the data where the scales differ. */
    method FillWithArgb32Data(fillArea: Option<Rectangle>, clip: Option<Rectangle>, data: seq<Pixel>, opacity: real, scale: nat,
                              sample: (int, int) -> Pixel)
      requires Valid() && scale >= 1 && 0.0 <= opacity <= 1.0
      requires HasData(Snapshot(), fillArea, clip, data, scale)
      modifies this, bytes
      ensures Valid() && bytes == old(bytes)
      ensures Snapshot() == Apply(old(Snapshot()), Data(fillArea, clip, data, OpacityByte(opacity), scale, sample))
    {
      hide Stamped, OpacityByte, Index, Cropped, Sound, Drawn, HalfDrawn, IsInside, OnPicture, Damaged, DataIndex;
      var fill := if fillArea.None? then logicalArea else fillArea.value;
      var cropped := DataCrop(fillArea, clip, scale);
      if cropped.width == 0 || cropped.height == 0 {
        return;
      }
      var opacityByte := OpacityByte(opacity);
      ghost var b, ink := Snapshot(), StampInk(Snapshot(), fill, data, opacityByte, scale, sample);
      NothingIsDrawn(b, cropped, ink);
      var row := cropped.y;
      while row < cropped.y + cropped.height
        modifies bytes
        invariant cropped.y <= row <= cropped.y + cropped.height
        invariant Snapshot() == b.(memory := HalfDrawn(b, cropped, ink, row, cropped.x))
      {
        var column := cropped.x;
        while column < cropped.x + cropped.width
          modifies bytes
          invariant cropped.x <= column <= cropped.x + cropped.width
          invariant Snapshot() == b.(memory := HalfDrawn(b, cropped, ink, row, column))
        {
          BeforeNextPoint(b, cropped, ink, row, column);
          var pixel;
          if deviceScale == scale {
            pixel := data[DataIndex(fill, Point(column, row))];
          } else {
            pixel := sample(column, row);
          }
          StampPixel(column, row, pixel, opacityByte);
          column := column + 1;
        }
        RowIsDrawn(b, cropped, ink, row);
        row := row + 1;
      }
      AllIsDrawn(b, cropped, ink);
      AddUpdatedArea(cropped);
      SoundAfterDrawing(b, cropped, ink);
    }

    /** One pixel of a gradient, and the noise it leaves behind. */
    method ShadePixel(red: nat, green: nat, blue: nat, noise: nat) returns (pixel: Pixel, next: nat)
      ensures next == Randomized(Randomized(Randomized(noise)))
      ensures pixel == Packed(OPAQUE, Dithered(red, Randomized(noise)), Dithered(green, Randomized(Randomized(noise))),
                              Dithered(blue, next))
    {
      next := Randomized(noise);
      var r := Dithered(red, next);
      next := Randomized(next);
      var g := Dithered(green, next);
      next := Randomized(next);
      return Packed(OPAQUE, r, g, Dithered(blue, next)), next;
    }

    /** A row of a gradient, pixel by pixel. */
    method ShadeRow(cropped: Rectangle, y: nat, red: nat, green: nat, blue: nat, noise: nat,
                    ghost b: Buffer, ghost start: Pixel, ghost end: Pixel) returns (next: nat)
      requires Sound(b) && IsInside(b, cropped) && cropped.y <= y < cropped.y + cropped.height && y < b.area.height
      requires red == Level(RedOf(start), RedOf(end), b.area.height, y) && green == Level(GreenOf(start), GreenOf(end), b.area.height, y)
      requires blue == Level(BlueOf(start), BlueOf(end), b.area.height, y)
      requires noise == Noise(3 * Times(y - cropped.y, cropped.width))
      requires Snapshot() == b.(memory := HalfDrawn(b, cropped, GradientInk(cropped, false, start, end, b.area.height), y, cropped.x))
      modifies bytes
      ensures next == Noise(3 * Times(y + 1 - cropped.y, cropped.width))
      ensures Snapshot() ==
              b.(memory := HalfDrawn(b, cropped, GradientInk(cropped, false, start, end, b.area.height), y, cropped.x + cropped.width))
    {
      hide Index, Sound, HalfDrawn, IsInside, OnPicture, Color, GradientInk, Level, Dithered, Packed, Times, Randomized, RedOf, GreenOf, BlueOf;
      ghost var ink := GradientInk(cropped, false, start, end, b.area.height);
      ghost var first := Times(y - cropped.y, cropped.width);
      OneMoreTime(cropped.width, y - cropped.y);
      next := noise;
      var x := cropped.x;
      while x < cropped.x + cropped.width
        modifies bytes
        invariant cropped.x <= x <= cropped.x + cropped.width
        invariant next == Noise(3 * (first + x - cropped.x))
        invariant Snapshot() == b.(memory := HalfDrawn(b, cropped, ink, y, x))
      {
        BeforeNextPoint(b, cropped, ink, y, x);
        GradientColor(cropped, false, start, end, b.area.height, x, y, bytes[Index(Snapshot(), Point(x, y))]);
        ThreeNoises(first + x - cropped.x);
        var pixel;
        pixel, next := ShadePixel(red, green, blue, next);
        SetPixel(x, y, pixel);
        x := x + 1;
      }
    }

    /** A row of a gradient, in copies of its first eight pixels. */
    method ShadeWideRow(cropped: Rectangle, y: nat, red: nat, green: nat, blue: nat, noise: nat,
                        ghost b: Buffer, ghost start: Pixel, ghost end: Pixel) returns (next: nat)
      requires Sound(b) && IsInside(b, cropped) && cropped.y <= y < cropped.y + cropped.height && y < b.area.height
      requires b.rotation.Upright? && cropped.width >= UNROLLED
      requires red == Level(RedOf(start), RedOf(end), b.area.height, y) && green == Level(GreenOf(start), GreenOf(end), b.area.height, y)
      requires blue == Level(BlueOf(start), BlueOf(end), b.area.height, y)
      requires noise == Noise(3 * Times(y - cropped.y, UNROLLED))
      requires Snapshot() == b.(memory := HalfDrawn(b, cropped, GradientInk(cropped, true, start, end, b.area.height), y, cropped.x))
      modifies bytes
      ensures next == Noise(3 * Times(y + 1 - cropped.y, UNROLLED))
      ensures Snapshot() ==
              b.(memory := HalfDrawn(b, cropped, GradientInk(cropped, true, start, end, b.area.height), y, cropped.x + cropped.width))
    {
      hide Index, Sound, HalfDrawn, IsInside, OnPicture, Color, GradientInk, Level, Dithered, Packed, Times, Randomized, RedOf, GreenOf, BlueOf,
        Shade;
      ghost var first := Times(y - cropped.y, UNROLLED);
      OneMoreTime(UNROLLED, y - cropped.y);
      var shaded := new Pixel[UNROLLED];
      next := noise;
      var x := 0;
      while x < UNROLLED
        modifies shaded
        invariant 0 <= x <= UNROLLED && next == Noise(3 * (first + x))
        invariant forall k :: 0 <= k < x ==> shaded[k] == Shade(start, end, b.area.height, y, first + k)
      {
        ThreeNoises(first + x);
        ShadeIs(start, end, b.area.height, y, first + x);
        var pixel;
        pixel, next := ShadePixel(red, green, blue, next);
        shaded[x] := pixel;
        x := x + 1;
      }
      var left := cropped.width;
      while left >= UNROLLED
        modifies bytes
        invariant 0 <= left <= cropped.width && (cropped.width - left) % UNROLLED == 0
        invariant Snapshot() == b.(memory := HalfDrawn(b, cropped, GradientInk(cropped, true, start, end, b.area.height), y,
                                                       cropped.x + cropped.width - left))
      {
        CopyShaded(cropped, y, shaded, cropped.width - left, UNROLLED, b, start, end);
        left := left - UNROLLED;
      }
      CopyShaded(cropped, y, shaded, cropped.width - left, left, b, start, end);
    }

    /** memcpy of some of the eight pixels to a column that is a multiple of eight. */
    method CopyShaded(cropped: Rectangle, y: nat, shaded: array<Pixel>, column: nat, count: nat,
                      ghost b: Buffer, ghost start: Pixel, ghost end: Pixel)
      requires Sound(b) && IsInside(b, cropped) && cropped.y <= y < cropped.y + cropped.height && y < b.area.height
      requires b.rotation.Upright? && column % UNROLLED == 0 && column + count <= cropped.width && count <= UNROLLED
      requires shaded != bytes && shaded.Length == UNROLLED
      requires forall k :: 0 <= k < UNROLLED ==>
                 shaded[k] == Shade(start, end, b.area.height, y, Times(y - cropped.y, UNROLLED) + k)
      requires var ink := GradientInk(cropped, true, start, end, b.area.height);
        Snapshot() == b.(memory := HalfDrawn(b, cropped, ink, y, cropped.x + column))
      modifies bytes
      ensures var ink := GradientInk(cropped, true, start, end, b.area.height);
        Snapshot() == b.(memory := HalfDrawn(b, cropped, ink, y, cropped.x + column + count))
    {
      if count == 0 {
        return;
      }
      hide Sound, HalfDrawn, IsInside, OnPicture, GradientInk, Times, Shade, Offset;
      ShadedStretch(b, cropped, y, shaded[..], column, count, start, end);
      CopyPixels(bytes, Offset(y, area.width, cropped.x + column), shaded, 0, count);
    }

    /** fill_with_gradient, which divides by the height of the buffer. */
    method FillWithGradient(fillArea: Option<Rectangle>, start: Pixel, end: Pixel)
      requires Valid() && area.height >= 1
      modifies this, bytes
      ensures Valid() && bytes == old(bytes)
      ensures Snapshot() == Graded(old(Snapshot()), fillArea, start, end)
    {
      hide Index, Cropped, Sound, Drawn, HalfDrawn, IsInside, OnPicture, Damaged, GradientInk, Color, Times, Level, StepOf, Noise;
      var fill := if fillArea.None? then logicalArea else fillArea.value;
      var cropped := CropAreaToClipArea(fill);
      ghost var b := Snapshot();
      CroppedInside(b, isOpaque, fill);
      var isUnrolled := !(cropped.width < UNROLLED || deviceRotation != Upright);
      ghost var ink := GradientInk(cropped, isUnrolled, start, end, area.height);
      var perRow := PixelsPerRow(cropped, isUnrolled);
      var red: nat, green: nat, blue: nat := RedOf(start) * UNIT, GreenOf(start) * UNIT, BlueOf(start) * UNIT;
      var redStep := StepOf(RedOf(start), RedOf(end), area.height);
      var greenStep := StepOf(GreenOf(start), GreenOf(end), area.height);
      var blueStep := StepOf(BlueOf(start), BlueOf(end), area.height);
      var noise := FIRST_NOISE;
      FirstRow(b, cropped, ink, start, end, area.height, perRow);
      hide RedOf, GreenOf, BlueOf;
      var y := 0;
      while y < area.height
        modifies bytes
        invariant 0 <= y <= area.height && area == b.area
        invariant red == Level(RedOf(start), RedOf(end), area.height, y)
        invariant green == Level(GreenOf(start), GreenOf(end), area.height, y)
        invariant blue == Level(BlueOf(start), BlueOf(end), area.height, y)
        invariant noise == Noise(3 * Times(RowsAbove(cropped, y), perRow))
        invariant Snapshot() == b.(memory := HalfDrawn(b, cropped, ink, cropped.y + RowsAbove(cropped, y), cropped.x))
      {
        if cropped.y <= y < cropped.y + cropped.height {
          if isUnrolled {
            noise := ShadeWideRow(cropped, y, red, green, blue, noise, b, start, end);
          } else {
            noise := ShadeRow(cropped, y, red, green, blue, noise, b, start, end);
          }
          RowIsDrawn(b, cropped, ink, y);
        }
        NextLevel(RedOf(start), RedOf(end), area.height, y);
        NextLevel(GreenOf(start), GreenOf(end), area.height, y);
        NextLevel(BlueOf(start), BlueOf(end), area.height, y);
        red, green, blue := (red + redStep) % 0x1_0000_0000, (green + greenStep) % 0x1_0000_0000, (blue + blueStep) % 0x1_0000_0000;
        y := y + 1;
      }
      LastRow(b, cropped, ink);
      AddUpdatedArea(cropped);
      SoundAfterDrawing(b, cropped, ink);
      GradientIs(b, fillArea, start, end);
    }

    /** copy_area: row by row; (x, y) is the place in the source where copying starts. */
    method CopyArea(source: PixelBuffer, x: nat, y: nat, cropped: Rectangle)
      requires Valid() && deviceRotation.Upright? && source != this && source.bytes != bytes
      requires IsInside(Snapshot(), cropped) && !IsEmpty(cropped)
      requires Covers(source.bytes[..], Rectangle(cropped.x - x, cropped.y - y, source.area.width, source.area.height), cropped)
      modifies bytes
      ensures Snapshot() == Drawn(old(Snapshot()), cropped,
        Copy(source.bytes[..], Rectangle(cropped.x - x, cropped.y - y, source.area.width, source.area.height)))
    {
      hide Sound, HalfDrawn, Drawn, Index, OnPicture, DataIndex, IsInside, Covers, IsEmpty, Offset;
      ghost var b := Snapshot();
      ghost var fill := Rectangle(cropped.x - x, cropped.y - y, source.area.width, source.area.height);
      ghost var ink := Copy(source.bytes[..], fill);
      NothingIsDrawn(b, cropped, ink);
      var row := y;
      while row < y + cropped.height
        modifies bytes
        invariant y <= row <= y + cropped.height
        invariant Snapshot() == b.(memory := HalfDrawn(b, cropped, ink, cropped.y + row - y, cropped.x))
      {
        CopiedRow(b, cropped, source.bytes[..], fill, cropped.y + row - y);
        CopyOffsets(b, cropped, fill, x, y, row);
        CopyPixels(bytes, Offset(cropped.y + row - y, area.width, cropped.x), source.bytes, Offset(row, source.area.width, x),
                   cropped.width);
        RowIsDrawn(b, cropped, ink, cropped.y + row - y);
        row := row + 1;
      }
      AllIsDrawn(b, cropped, ink);
    }

    /** fill_with_buffer_at_opacity_with_clip */
    method FillWithBuffer(source: PixelBuffer, xOffset: int, yOffset: int, clip: Option<Rectangle>, opacity: real,
                          sample: (int, int) -> Pixel)
      requires Valid() && source.Valid() && source != this && source.bytes != bytes && Scaled(source.Snapshot())
      requires 0.0 <= opacity <= 1.0
      modifies this, bytes
      ensures Valid() && bytes == old(bytes)
      ensures Snapshot() == Blitted(old(Snapshot()), source.Snapshot(), xOffset, yOffset, clip, opacity, sample)
    {
      hide Sound, Drawn, Index, OnPicture, DataIndex, IsInside, Covers, Cropped, Truncated, Times, Upscaled, Downscaled;
      if opacity == 1.0 && source.isOpaque && deviceScale == source.deviceScale && deviceRotation.Upright? {
        var cropped := CropAreaToClipArea(Rectangle(xOffset, yOffset, source.logicalArea.width, source.logicalArea.height));
        if clip.Some? {
          cropped := Intersect(cropped, clip.value);
        }
        if cropped.width == 0 || cropped.height == 0 {
          return;
        }
        CopyIsCovered(Snapshot(), source.Snapshot(), xOffset, yOffset, clip);
        ghost var b := Snapshot();
        var x, y := cropped.x - Times(xOffset, deviceScale), cropped.y - Times(yOffset, deviceScale);
        CopyArea(source, x, y, cropped);
        updatedAreas := updatedAreas + [cropped];
        BlitIsSound(b, source.Snapshot(), xOffset, yOffset, clip, opacity, sample);
      } else {
        var fill := Rectangle(Times(xOffset, source.deviceScale), Times(yOffset, source.deviceScale),
                              source.area.width, source.area.height);
        StampIsCovered(Snapshot(), source.Snapshot(), xOffset, yOffset, clip);
        FillWithArgb32Data(Some(fill), clip, source.bytes[..], opacity, source.deviceScale, sample);
      }
    }

    method SetDeviceScale(scale: nat)
      requires scale >= 1
      modifies this
      ensures bytes == old(bytes) && Snapshot() == WithScale(old(Snapshot()), scale)
    {
      deviceScale := scale;
      logicalArea := Rectangle(logicalArea.x, logicalArea.y, Truncated(area.width, scale), Truncated(area.height, scale));
    }

    method SetDeviceRotation(rotation: Rotation)
      requires deviceScale >= 1
      modifies this
      ensures bytes == old(bytes) && Snapshot() == WithRotation(old(Snapshot()), rotation)
    {
      if deviceRotation == rotation {
        return;
      }
      var wasSideways := deviceRotation.Clockwise? || deviceRotation.CounterClockwise?;
      var isSideways := rotation.Clockwise? || rotation.CounterClockwise?;
      deviceRotation := rotation;
      if wasSideways != isSideways {
        area := Rectangle(area.x, area.y, area.height, area.width);
        SetDeviceScale(deviceScale);
      }
      while |clipAreas| > 0
        modifies `clipAreas
      {
        PopClipArea();
      }
      PushClipArea(area);
    }

    /** rotate_upright: a new buffer, pixel by pixel. */
    method RotateUpright() returns (buffer: PixelBuffer)
      requires Valid()
      ensures fresh(buffer) && fresh(buffer.bytes)
      ensures buffer.Snapshot() == RotatedUpright(Snapshot())
    {
      hide Sound, HalfDrawn, Drawn, Index, Contains, IsInside, Truncated, Picture, Get, Datum;
      ghost var turned := Snapshot();
      var width, height := area.width, area.height;
      buffer := new PixelBuffer(width, height, Upright);
      BlankIsUpright(turned);
      ghost var b := buffer.Snapshot();
      ghost var ink := Copy(Picture(turned), area);
      NothingIsDrawn(b, area, ink);
      var y := 0;
      while y < height
        modifies buffer.bytes
        invariant 0 <= y <= height
        invariant buffer.Snapshot() == b.(memory := HalfDrawn(b, area, ink, y, 0))
      {
        var x := 0;
        while x < width
          modifies buffer.bytes
          invariant 0 <= x <= width
          invariant buffer.Snapshot() == b.(memory := HalfDrawn(b, area, ink, y, x))
        {
          BeforeNextPoint(b, area, ink, y, x);
          PictureAt(turned, Point(x, y));
          var pixel := GetPixel(x, y);
          buffer.SetPixel(x, y, pixel);
          x := x + 1;
        }
        RowIsDrawn(b, area, ink, y);
        y := y + 1;
      }
      AllIsDrawn(b, area, ink);
      PictureIsDrawn(turned, b);
      buffer.SetDeviceScale(deviceScale);
      buffer.isOpaque := isOpaque;
    }
  }
}
