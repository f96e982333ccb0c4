/**
 What is at a pixel of the picture once something was drawn on it, to the precision of
 the fixed-point arithmetic (src/libply-splash-core/ply-pixel-buffer.c).
 */
module Painting {
  import opened Base
  import opened Arithmetic
  import opened Pixels
  import opened Rectangles
  import opened Canvas
  import opened Pictures
  import opened Gradients
  import opened PixelBuffers

  // ----- one channel

  predicate IsWithin(a: int, b: int, error: nat) {
    b - error <= a <= b + error
  }

  /** A premultiplied channel `s` with alpha `a`, over a channel `d` of an opaque pixel. */
  predicate IsComposited(out: byte, s: byte, a: byte, d: byte) {
    IsWithin(255 * out, 255 * s + d * (255 - a), 128)
  }

  /** The same of a channel made translucent first, by an opacity out of 255. */
  predicate IsFaded(out: byte, s: byte, a: byte, o: byte, d: byte) {
    IsWithin(65025 * out, 255 * (o * s) + d * (65025 - a * o), 97920)
  }

  /** Over a translucent pixel a channel is the sum of two products, which one byte often cannot hold. */
  predicate IsSaturated(out: byte, s: byte, a: byte, d: byte, b: byte) {
    var v := s * a + d * b * (255 - a);
    if v >= 65025 then out == 255 else IsWithin(255 * out, v, 128)
  }

  lemma FadingIsWithin(out: byte, s: byte, a: byte, o: byte, d: byte, s': byte, a': byte)
    requires IsWithin(255 * s', s * o, 128) && IsWithin(255 * a', a * o, 128) && IsComposited(out, s', a', d)
    ensures IsFaded(out, s, a, o, d)
  {
    var e := 255 * a' - a * o;
    assert -32640 <= d * e <= 32640 by { SmallProduct(d, e); }
    assert 255 * (d * (255 - a')) == d * (65025 - a * o) - d * e by { Distribute(d, a', a * o, e); }
  }

  lemma SmallProduct(d: byte, e: int)
    requires -128 <= e <= 128
    ensures -32640 <= d * e <= 32640
  {
    if e >= 0 {
      TimesIsBounded(d, e, 255, 128);
    } else {
      TimesIsBounded(d, 0 - e, 255, 128);
      assert d * e == 0 - d * (0 - e);
    }
  }

  lemma Distribute(d: int, a': int, x: int, e: int)
    requires 255 * a' == x + e
    ensures 255 * (d * (255 - a')) == d * (65025 - x) - d * e
  {
    assert 255 * (d * (255 - a')) == d * (65025 - 255 * a');
    assert d * (65025 - x - e) == d * (65025 - x) - d * e;
  }

  // ----- one pixel

  predicate IsCompositedPixel(out: Pixel, p: Pixel, backdrop: Pixel) {
    && AlphaOf(out) == 255
    && IsComposited(RedOf(out), RedOf(p), AlphaOf(p), RedOf(backdrop))
    && IsComposited(GreenOf(out), GreenOf(p), AlphaOf(p), GreenOf(backdrop))
    && IsComposited(BlueOf(out), BlueOf(p), AlphaOf(p), BlueOf(backdrop))
  }

  predicate IsFadedPixel(out: Pixel, p: Pixel, opacity: byte, backdrop: Pixel) {
    && AlphaOf(out) == 255
    && IsFaded(RedOf(out), RedOf(p), AlphaOf(p), opacity, RedOf(backdrop))
    && IsFaded(GreenOf(out), GreenOf(p), AlphaOf(p), opacity, GreenOf(backdrop))
    && IsFaded(BlueOf(out), BlueOf(p), AlphaOf(p), opacity, BlueOf(backdrop))
  }

  lemma InkIsComposited(p: Pixel, backdrop: Pixel)
    requires Premultiplied(p) && AlphaOf(backdrop) == 255
    ensures IsCompositedPixel(Inked(p, backdrop), p, backdrop)
  {
    hide AlphaOf, RedOf, GreenOf, BlueOf, Blended, IsScaledDown, IsComposited;
    if AlphaOf(p) == 255 {
      NothingShowsThrough(RedOf(p), RedOf(backdrop));
      NothingShowsThrough(GreenOf(p), GreenOf(backdrop));
      NothingShowsThrough(BlueOf(p), BlueOf(backdrop));
    } else {
      BlendedOverOpaque(p, backdrop);
      var out, a := Blended(p, backdrop), AlphaOf(p);
      ScaledIsComposited(RedOf(out), RedOf(p), a, RedOf(backdrop));
      ScaledIsComposited(GreenOf(out), GreenOf(p), a, GreenOf(backdrop));
      ScaledIsComposited(BlueOf(out), BlueOf(p), a, BlueOf(backdrop));
    }
  }

  lemma NothingShowsThrough(s: byte, d: byte)
    ensures IsComposited(s, s, 255, d)
  {
  }

  lemma ScaledIsComposited(out: byte, s: byte, a: byte, d: byte)
    requires IsScaledDown(out, 255 * s + Times(d, 255 - a))
    ensures IsComposited(out, s, a, d)
  {
  }

  lemma StampIsFaded(datum: Pixel, opacity: byte, backdrop: Pixel)
    requires Premultiplied(datum) && AlphaOf(backdrop) == 255
    ensures AlphaOf(datum) == 0 ==> Stamped(datum, opacity, backdrop) == backdrop
    ensures AlphaOf(datum) != 0 ==> IsFadedPixel(Stamped(datum, opacity, backdrop), datum, opacity, backdrop)
  {
    hide AlphaOf, RedOf, GreenOf, BlueOf, Inked, Translucent, IsFaded, IsComposited;
    var q := Translucent(datum, opacity);
    TranslucentIsScaled(datum, opacity);
    InkIsComposited(q, backdrop);
    var out := Inked(q, backdrop);
    FadingIsWithin(RedOf(out), RedOf(datum), AlphaOf(datum), opacity, RedOf(backdrop), RedOf(q), AlphaOf(q));
    FadingIsWithin(GreenOf(out), GreenOf(datum), AlphaOf(datum), opacity, GreenOf(backdrop), GreenOf(q), AlphaOf(q));
    FadingIsWithin(BlueOf(out), BlueOf(datum), AlphaOf(datum), opacity, BlueOf(backdrop), BlueOf(q), AlphaOf(q));
  }

  // ----- over a translucent pixel

  lemma ChannelSaturates(s: byte, a: byte, d: byte, b: byte)
    ensures IsSaturated(OverTranslucent(s, a, d, b), s, a, d, b)
  {
    hide Rounded;
    var v := Times(s, a) + Times(Times(d, b), 255 - a);
    assert v == s * a + d * b * (255 - a);
    if v >= 65025 {
      RoundedIsMonotone(65025, v);
      LargestIsRounded();
    } else {
      RoundedIsClose(v);
    }
  }

  lemma LargestIsRounded()
    ensures Rounded(65025) == 255
  {
  }

  lemma AlphaIsComposited(a: byte, b: byte)
    ensures IsComposited(Clamp(Rounded(a * 255 + Times(b, 255 - a))), a, a, b)
  {
    hide Rounded;
    TimesIsBounded(b, 255 - a, 255, 255 - a);
    TimesOpaque(255 - a);
    RoundedIsClose(a * 255 + Times(b, 255 - a));
  }

  /** Over a translucent pixel the alphas are composited, and the colours are summed until they saturate. */
  predicate IsSaturatedPixel(out: Pixel, p: Pixel, backdrop: Pixel) {
    var a, b := AlphaOf(p), AlphaOf(backdrop);
    && IsComposited(AlphaOf(out), a, a, b)
    && IsSaturated(RedOf(out), RedOf(p), a, RedOf(backdrop), b)
    && IsSaturated(GreenOf(out), GreenOf(p), a, GreenOf(backdrop), b)
    && IsSaturated(BlueOf(out), BlueOf(p), a, BlueOf(backdrop), b)
  }

  /** What a pixel drawn on another leaves, whatever the two are, but for a pixel that is not premultiplied on an opaque one. */
  predicate IsPainted(out: Pixel, p: Pixel, backdrop: Pixel) {
    if AlphaOf(p) == 255 then out == p
    else if AlphaOf(backdrop) == 255 then Premultiplied(p) ==> IsCompositedPixel(out, p, backdrop)
    else IsSaturatedPixel(out, p, backdrop)
  }

  lemma InkIsPainted(p: Pixel, backdrop: Pixel)
    ensures IsPainted(Inked(p, backdrop), p, backdrop)
  {
    hide AlphaOf, RedOf, GreenOf, BlueOf, IsComposited, IsSaturated, OverTranslucent, Clamp, Rounded, Packed, IsCompositedPixel, Over;
    var a, b := AlphaOf(p), AlphaOf(backdrop);
    if a != 255 && b != 255 {
      AlphaIsComposited(a, b);
      ChannelSaturates(RedOf(p), a, RedOf(backdrop), b);
      ChannelSaturates(GreenOf(p), a, GreenOf(backdrop), b);
      ChannelSaturates(BlueOf(p), a, BlueOf(backdrop), b);
      PackedChannels(Clamp(Rounded(a * 255 + Times(b, 255 - a))), OverTranslucent(RedOf(p), a, RedOf(backdrop), b),
                     OverTranslucent(GreenOf(p), a, GreenOf(backdrop), b), OverTranslucent(BlueOf(p), a, BlueOf(backdrop), b));
    } else if a != 255 && Premultiplied(p) {
      InkIsComposited(p, backdrop);
    }
  }

  /** A half transparent grey pixel on another comes out white. */
  lemma GreyOnGreyIsWhite()
    ensures var out := Inked(0x8080_8080, 0x8080_8080);
      RedOf(out) == 255 && GreenOf(out) == 255 && BlueOf(out) == 255 && AlphaOf(out) == 192
  {
    hide Inked, AlphaOf, RedOf, GreenOf, BlueOf;
    GreyChannels();
    InkIsPainted(0x8080_8080, 0x8080_8080);
  }

  lemma GreyChannels()
    ensures AlphaOf(0x8080_8080) == 128 && RedOf(0x8080_8080) == 128 && GreenOf(0x8080_8080) == 128 && BlueOf(0x8080_8080) == 128
  {
  }

  // ----- the picture

  /** The pixel lies in a rectangle of a coarser grid. */
  lemma UpscaledContains(r: Rectangle, scale: nat, x: int, y: int)
    requires scale >= 1
    ensures Contains(Upscaled(r, scale), x, y) <==> Contains(r, x / scale, y / scale)
  {
    GridLine(r.x, scale, x);
    GridLine(r.x + r.width, scale, x);
    GridLine(r.y, scale, y);
    GridLine(r.y + r.height, scale, y);
    Distributes(r.x, r.width, scale);
    Distributes(r.y, r.height, scale);
  }

  lemma GridLine(a: int, scale: nat, x: int)
    requires scale >= 1
    ensures Times(a, scale) <= x <==> a <= x / scale
  {
    var q, r := x / scale, x % scale;
    assert x == q * scale + r;
    Distributes(q, a, scale);
    if q != a {
      MultipleIsLarge(q - a, scale);
    }
  }

  /** Scaling down drops the fraction, towards zero. */
  lemma TruncatedIsTowardsZero(a: int, scale: nat)
    requires scale >= 1
    ensures var q := Truncated(a, scale);
      if a >= 0 then q >= 0 && Times(q, scale) <= a < Times(q, scale) + scale else q <= 0 && Times(q, scale) - scale < a <= Times(q, scale)
  {
    var m := if a >= 0 then a else 0 - a;
    assert m == m / scale * scale + m % scale;
    Distributes(0, m / scale, scale);
  }

  /** The pixel is inside every clip, and inside the area once that is scaled. */
  predicate IsReached(b: Buffer, area: Rectangle, p: Point) {
    InAll(b.clips, p.x, p.y) && Contains(Upscaled(area, b.scale), p.x, p.y)
  }

  lemma ReachedIsCropped(b: Buffer, area: Rectangle, p: Point)
    ensures IsReached(b, area, p) <==> Contains(Cropped(b, area), p.x, p.y)
  {
    ClippedIsIntersection(Upscaled(area, b.scale), b.clips, p.x, p.y);
  }

  /** A fill paints its pixel inside the area and the clips, and nothing else. */
  lemma FillPaints(b: Buffer, area: Option<Rectangle>, pixel: Pixel, p: Point)
    requires Sound(b) && OnPicture(b, p)
    ensures var c := Apply(b, Fill(area, pixel));
      && Sound(c) && OnPicture(c, p)
      && if IsReached(b, if area.None? then b.logicalArea else area.value, p) then IsPainted(Get(c, p), pixel, Get(b, p)) else Get(c, p) == Get(b, p)
  {
    hide Index, Place, Color, IsPainted, Clipped, Upscaled;
    var fill := if area.None? then b.logicalArea else area.value;
    ReachedIsCropped(b, fill, p);
    ApplyIsDrawn(b, Fill(area, pixel), Cropped(b, fill), Solid(pixel), p);
    SolidColor(pixel, p, Get(b, p));
    InkIsPainted(pixel, Get(b, p));
  }

  lemma SolidColor(pixel: Pixel, p: Point, backdrop: Pixel)
    ensures Color(Solid(pixel), p, backdrop) == Inked(pixel, backdrop)
  {
  }

  lemma ApplyIsDrawn(b: Buffer, op: Operation, area: Rectangle, ink: Ink, p: Point)
    requires Sound(b) && CanApply(b, op) && OnPicture(b, p)
    requires DrawingOf(b, op) == Inside(area, ink) || (DrawingOf(b, op).Nothing? && !Contains(area, p.x, p.y))
    ensures var c := Apply(b, op);
      && Sound(c) && OnPicture(c, p)
      && Get(c, p) == if Contains(area, p.x, p.y) then Color(ink, p, Get(b, p)) else Get(b, p)
  {
    hide Index, Place, Color, DrawingOf, Apply, Drawn;
    var c := Apply(b, op);
    ApplyDraws(b, op);
    DrawnPixel(b, area, ink, p);
    if DrawingOf(b, op).Nothing? {
      SameMemorySamePixel(b, c, p);
    } else {
      DrawnIsShaped(b, area, ink);
      SameMemorySamePixel(Drawn(b, area, ink), c, p);
    }
  }

  lemma DrawnIsShaped(b: Buffer, area: Rectangle, ink: Ink)
    requires Sound(b)
    ensures var d := Drawn(b, area, ink); Sound(d) && d.area == b.area && d.rotation == b.rotation
  {
  }

  lemma SameMemorySamePixel(b: Buffer, c: Buffer, p: Point)
    requires Sound(b) && Sound(c) && OnPicture(b, p) && b.area == c.area && b.rotation == c.rotation && b.memory == c.memory
    ensures OnPicture(c, p) && Get(c, p) == Get(b, p)
  {
    SameShapeSamePlaces(b, c, p);
  }

  /** The datum for a pixel: row by row from the corner of `fill`, or as interpolated. */
  function DatumFor(b: Buffer, fill: Rectangle, data: seq<Pixel>, dataScale: nat, sample: (int, int) -> Pixel, p: Point): Pixel {
    if b.scale != dataScale then sample(p.x, p.y)
    else
      var i := (p.y - fill.y) * fill.width + (p.x - fill.x);
      if 0 <= i < |data| then data[i] else 0
  }

  /** Data reaches what its area does, scaled down and cut to the clip. */
  predicate IsStamped(b: Buffer, fill: Option<Rectangle>, clip: Option<Rectangle>, dataScale: nat, p: Point)
    requires dataScale >= 1
  {
    && IsReached(b, if fill.None? then b.logicalArea else Downscaled(fill.value, dataScale), p)
    && (clip.Some? ==> Contains(Upscaled(Downscaled(clip.value, dataScale), b.scale), p.x, p.y))
  }

  /** What a datum at an opacity leaves: nothing new when it is transparent, else a scaled pixel painted. */
  ghost predicate IsInkedAt(out: Pixel, datum: Pixel, opacity: byte, backdrop: Pixel) {
    if AlphaOf(datum) == 0 then out == backdrop
    else exists scaled: Pixel :: IsScaledBy(scaled, datum, opacity) && IsPainted(out, scaled, backdrop)
  }

  predicate IsScaledBy(scaled: Pixel, p: Pixel, opacity: byte) {
    && IsWithin(255 * AlphaOf(scaled), AlphaOf(p) * opacity, 128)
    && IsWithin(255 * RedOf(scaled), RedOf(p) * opacity, 128)
    && IsWithin(255 * GreenOf(scaled), GreenOf(p) * opacity, 128)
    && IsWithin(255 * BlueOf(scaled), BlueOf(p) * opacity, 128)
  }

  lemma StampIsInked(datum: Pixel, opacity: byte, backdrop: Pixel)
    ensures IsInkedAt(Stamped(datum, opacity, backdrop), datum, opacity, backdrop)
  {
    hide AlphaOf, RedOf, GreenOf, BlueOf, Inked, Translucent, IsPainted, IsScaledBy;
    var scaled := Translucent(datum, opacity);
    AnyPixelIsScaled(datum, opacity);
    InkIsPainted(scaled, backdrop);
  }

  lemma AnyPixelIsScaled(p: Pixel, opacity: byte)
    ensures IsScaledBy(Translucent(p, opacity), p, opacity)
  {
    hide AlphaOf, RedOf, GreenOf, BlueOf, Packed, LowByte, Rounded, Times;
    ChannelIsScaled(AlphaOf(p), opacity);
    ChannelIsScaled(RedOf(p), opacity);
    ChannelIsScaled(GreenOf(p), opacity);
    ChannelIsScaled(BlueOf(p), opacity);
    PackedChannels(LowByte(Rounded(Times(AlphaOf(p), opacity))), LowByte(Rounded(Times(RedOf(p), opacity))),
                   LowByte(Rounded(Times(GreenOf(p), opacity))), LowByte(Rounded(Times(BlueOf(p), opacity))));
  }

  lemma ChannelIsScaled(c: byte, opacity: byte)
    ensures IsWithin(255 * LowByte(Rounded(Times(c, opacity))), c * opacity, 128)
  {
    hide Rounded;
    TimesIsBounded(c, opacity, 255, 255);
    RoundedIsClose(Times(c, opacity));
  }

  /** The data drawn on an opaque pixel: a transparent datum leaves it alone, another is faded and composited. */
  predicate IsFadedOnto(out: Pixel, datum: Pixel, opacity: byte, backdrop: Pixel) {
    AlphaOf(backdrop) == 255 && Premultiplied(datum) ==>
      if AlphaOf(datum) == 0 then out == backdrop else IsFadedPixel(out, datum, opacity, backdrop)
  }

  /** What drawing data leaves at a pixel of the picture, on an opaque pixel and on any other. */
  ghost predicate IsDataAt(c: Buffer, b: Buffer, p: Point, reached: bool, datum: Pixel, opacity: byte) {
    && Sound(c) && Sound(b) && OnPicture(b, p) && OnPicture(c, p)
    && if reached then IsFadedOnto(Get(c, p), datum, opacity, Get(b, p)) && IsInkedAt(Get(c, p), datum, opacity, Get(b, p))
       else Get(c, p) == Get(b, p)
  }

  lemma StampedIsDataAt(b: Buffer, c: Buffer, area: Rectangle, fill: Rectangle, data: seq<Pixel>, opacity: byte, dataScale: nat,
                        sample: (int, int) -> Pixel, p: Point)
    requires Sound(b) && Sound(c) && OnPicture(b, p) && OnPicture(c, p)
    requires Get(c, p) == if Contains(area, p.x, p.y) then Color(StampInk(b, fill, data, opacity, dataScale, sample), p, Get(b, p)) else Get(b, p)
    ensures IsDataAt(c, b, p, Contains(area, p.x, p.y), DatumFor(b, fill, data, dataScale, sample, p), opacity)
  {
    hide Sound, Get, IsFadedPixel, IsInkedAt, Stamped;
    var datum, backdrop := DatumFor(b, fill, data, dataScale, sample, p), Get(b, p);
    InkOfDatum(b, fill, data, opacity, dataScale, sample, p, backdrop);
    hide Color, StampInk, DatumFor;
    StampIsInked(datum, opacity, backdrop);
    if AlphaOf(backdrop) == 255 && Premultiplied(datum) {
      StampIsFaded(datum, opacity, backdrop);
    }
  }

  lemma InkOfDatum(b: Buffer, fill: Rectangle, data: seq<Pixel>, opacity: byte, dataScale: nat, sample: (int, int) -> Pixel, p: Point,
                   backdrop: Pixel)
    ensures Color(StampInk(b, fill, data, opacity, dataScale, sample), p, backdrop) ==
            Stamped(DatumFor(b, fill, data, dataScale, sample, p), opacity, backdrop)
  {
    hide Stamped;
    assert DataIndex(fill, p) == (p.y - fill.y) * fill.width + (p.x - fill.x);
  }

  /**
   Data at an opacity: inside its area, the clip and the clips in force, a transparent
   datum leaves the pixel alone and another is faded and composited; nothing is painted elsewhere.
   */
  lemma DataPaints(b: Buffer, op: Operation, p: Point)
    requires Sound(b) && op.Data? && CanApply(b, op) && OnPicture(b, p)
    ensures var fill := if op.fill.None? then b.logicalArea else op.fill.value;
      IsDataAt(Apply(b, op), b, p, IsStamped(b, op.fill, op.clip, op.dataScale, p),
               DatumFor(b, fill, op.data, op.dataScale, op.sample, p), op.opacity)
  {
    hide Index, Place, Color, Clipped, Upscaled, Downscaled, Sound, Get, DatumFor, IsDataAt, Apply, StampInk, Intersect;
    var fill := if op.fill.None? then b.logicalArea else op.fill.value;
    var area := if op.fill.None? then b.logicalArea else Downscaled(fill, op.dataScale);
    var crop := StampClip(b, Cropped(b, area), op.clip, op.dataScale);
    ReachedIsCropped(b, area, p);
    if op.clip.Some? {
      IntersectIsIntersection(Cropped(b, area), Upscaled(Downscaled(op.clip.value, op.dataScale), b.scale), p.x, p.y);
    }
    var ink := StampInk(b, fill, op.data, op.opacity, op.dataScale, op.sample);
    ApplyIsDrawn(b, op, crop, ink, p);
    StampedIsDataAt(b, Apply(b, op), crop, fill, op.data, op.opacity, op.dataScale, op.sample, p);
  }

  /** The opacity out of 255, rounded down. */
  lemma OpacityByteIs(opacity: real)
    requires 0.0 <= opacity <= 1.0
    ensures OpacityByte(opacity) as real <= opacity * 255.0 < OpacityByte(opacity) as real + 1.0
    ensures OpacityByte(1.0) == 255 && OpacityByte(0.5) == 127
  {
  }

  /** A blit that blends does the same with the source's memory. */
  lemma SlowBlitPaints(canvas: Buffer, source: Buffer, xOffset: int, yOffset: int, clip: Option<Rectangle>, opacity: real,
                       sample: (int, int) -> Pixel, p: Point)
    requires Sound(canvas) && source.scale >= 1 && 0.0 <= opacity <= 1.0 && OnPicture(canvas, p)
    ensures var fill := Rectangle(Times(xOffset, source.scale), Times(yOffset, source.scale), source.area.width, source.area.height);
      IsDataAt(BlittedSlowly(canvas, source, xOffset, yOffset, clip, opacity, sample), canvas, p,
               IsStamped(canvas, Some(fill), clip, source.scale, p),
               DatumFor(canvas, fill, source.memory, source.scale, sample, p), OpacityByte(opacity))
  {
    hide IsDataAt, DatumFor, IsStamped, OpacityByte;
    var fill := Placed(source, xOffset, yOffset, source.scale);
    DataPaints(canvas, Data(Some(fill), clip, source.memory, OpacityByte(opacity), source.scale, sample), p);
  }

  /** A blit that copies leaves the source's pixels, opaque or not. */
  lemma FastBlitPaints(canvas: Buffer, source: Buffer, xOffset: int, yOffset: int, clip: Option<Rectangle>, p: Point)
    requires Sound(canvas) && Sound(source) && Scaled(source) && TakesFastPath(canvas, source, 1.0) && OnPicture(canvas, p)
    ensures var c := Copied(canvas, source, xOffset, yOffset, clip);
      var reached := IsReached(canvas, Rectangle(xOffset, yOffset, source.logicalArea.width, source.logicalArea.height), p)
                     && (clip.Some? ==> Contains(clip.value, p.x, p.y));
      var i := (p.y - Times(yOffset, canvas.scale)) * source.area.width + (p.x - Times(xOffset, canvas.scale));
      && Sound(c) && OnPicture(c, p)
      && if reached then 0 <= i < |source.memory| && Get(c, p) == source.memory[i] else Get(c, p) == Get(canvas, p)
  {
    hide Index, Place, Clipped, Upscaled, Get, Intersect, Times, Scaled;
    var area := Rectangle(xOffset, yOffset, source.logicalArea.width, source.logicalArea.height);
    var op := Blit(source, xOffset, yOffset, clip, 1.0, (x, y) => 0);
    var crop, fill := CopyArea(canvas, source, xOffset, yOffset, clip), Placed(source, xOffset, yOffset, canvas.scale);
    ReachedIsCropped(canvas, area, p);
    if clip.Some? {
      IntersectIsIntersection(Cropped(canvas, area), clip.value, p.x, p.y);
    }
    ApplyIsDrawn(canvas, op, crop, Copy(source.memory, fill), p);
    if Contains(crop, p.x, p.y) {
      CopyReadsInBounds(canvas, source, xOffset, yOffset, clip, p);
      CopiedColor(source.memory, fill, p, Get(canvas, p));
    }
  }

  lemma CopiedColor(data: seq<Pixel>, fill: Rectangle, p: Point, backdrop: Pixel)
    requires 0 <= DataIndex(fill, p) < |data|
    ensures var i := (p.y - fill.y) * fill.width + (p.x - fill.x); 0 <= i < |data| && Color(Copy(data, fill), p, backdrop) == data[i]
  {
    assert DataIndex(fill, p) == (p.y - fill.y) * fill.width + (p.x - fill.x);
  }

  /** A gradient leaves its own colours, at full alpha. */
  lemma GradientPaints(b: Buffer, area: Option<Rectangle>, shade: (int, int) -> Pixel, p: Point)
    requires Sound(b) && OnPicture(b, p)
    ensures var c, q := Shaded(b, area, shade), shade(p.x, p.y);
      && Sound(c) && OnPicture(c, p)
      && if IsReached(b, if area.None? then b.logicalArea else area.value, p)
         then AlphaOf(Get(c, p)) == 255 && RedOf(Get(c, p)) == RedOf(q) && GreenOf(Get(c, p)) == GreenOf(q) && BlueOf(Get(c, p)) == BlueOf(q)
         else Get(c, p) == Get(b, p)
  {
    hide Index, Place, Clipped, Upscaled, AlphaOf, RedOf, GreenOf, BlueOf, Packed;
    var fill, q := if area.None? then b.logicalArea else area.value, shade(p.x, p.y);
    ReachedIsCropped(b, fill, p);
    DrawnPixel(b, Cropped(b, fill), Shading(shade), p);
    DrawnIsShaped(b, Cropped(b, fill), Shading(shade));
    SameMemorySamePixel(Drawn(b, Cropped(b, fill), Shading(shade)), Shaded(b, area, shade), p);
    PackedChannels(OPAQUE, RedOf(q), GreenOf(q), BlueOf(q));
  }

  /** fill_with_gradient: inside the area and all clips, the two colours' levels in the pixel's row with the noises of its place. */
  lemma GradientIsPainted(b: Buffer, area: Option<Rectangle>, start: Pixel, end: Pixel, p: Point)
    requires Sound(b) && OnPicture(b, p)
    ensures var c, fill := Graded(b, area, start, end), if area.None? then b.logicalArea else area.value;
      var crop := Cropped(b, fill);
      var dx, dy, h := p.x - crop.x, p.y - crop.y, b.area.height;
      var k := if b.rotation.Upright? && crop.width >= 8 then dy * 8 + dx % 8 else dy * crop.width + dx;
      && Sound(c) && OnPicture(c, p) && (IsReached(b, fill, p) <==> Contains(crop, p.x, p.y))
      && if !IsReached(b, fill, p) then Get(c, p) == Get(b, p)
         else && h >= 1 && 0 <= p.y && k >= 0 && AlphaOf(Get(c, p)) == 255
              && IsShaded(RedOf(Get(c, p)), RedOf(start), RedOf(end), h, p.y, k, 1)
              && IsShaded(GreenOf(Get(c, p)), GreenOf(start), GreenOf(end), h, p.y, k, 2)
              && IsShaded(BlueOf(Get(c, p)), BlueOf(start), BlueOf(end), h, p.y, k, 3)
  {
    hide Index, Place, Clipped, Upscaled, AlphaOf, RedOf, GreenOf, BlueOf, IsShaded, Get, Drawn, GradientPixel, IsReached;
    var fill := if area.None? then b.logicalArea else area.value;
    var crop := Cropped(b, fill);
    var isUnrolled := crop.width >= UNROLLED && b.rotation.Upright?;
    var h := b.area.height;
    ReachedIsCropped(b, fill, p);
    GradientPaints(b, area, (x: int, y: int) => GradientPixel(crop, isUnrolled, start, end, h, x, y), p);
    if Contains(crop, p.x, p.y) {
      PixelsTakeNoiseInOrder(crop, isUnrolled, start, end, h, p.x, p.y);
    }
  }

  // ----- which way a rotated picture lies in memory

  /** The first cell of memory is a corner of the picture, and one step to the right or down is one cell or one row, forwards or back. */
  lemma PictureIsTurned(b: Buffer, p: Point)
    ensures var w, h := b.area.width, b.area.height;
      var corner, right, down := Index(b, Point(0, 0)), Index(b, Point(p.x + 1, p.y)) - Index(b, p), Index(b, Point(p.x, p.y + 1)) - Index(b, p);
      match b.rotation
      case Upright => corner == 0 && right == 1 && down == w
      case UpsideDown => corner == w * h - 1 && right == -1 && down == 0 - w
      case Clockwise => corner == h - 1 && right == h && down == -1
      case CounterClockwise => corner == w * h - h && right == 0 - h && down == 1
  {
    var w, h := b.area.width, b.area.height;
    Distributes(p.y, 1, w);
    Distributes(h - 1 - p.y, 1, w);
    Distributes(p.x, 1, h);
    Distributes(w - 1 - p.x, 1, h);
    Distributes(h, 1, w);
    Distributes(w, 1, h);
  }

  // ----- clips, marks, scales and turns

  /** A clip pushed cuts everything to it, in device pixels, until it is popped. */
  lemma ClipsAreStacked(b: Buffer, clip: Rectangle, p: Point)
    requires Sound(b)
    ensures InAll(Pushed(b, clip).clips, p.x, p.y) <==> InAll(b.clips, p.x, p.y) && Contains(clip, p.x / b.scale, p.y / b.scale)
    ensures Popped(Pushed(b, clip)) == b && Pushed(b, clip).(clips := b.clips) == b
  {
    hide Upscaled, Contains;
    var c := Pushed(b, clip);
    UpscaledContains(clip, b.scale, p.x, p.y);
    assert c.clips[|b.clips|] == Upscaled(clip, b.scale) && c.clips[..|b.clips|] == b.clips;
    if InAll(c.clips, p.x, p.y) {
      assert forall i :: 0 <= i < |b.clips| ==> c.clips[i] == b.clips[i];
    }
  }

  /** Only a fill marks a buffer opaque, with an opaque pixel for the whole area; nothing takes the mark away. */
  lemma OnlyFillsMark(b: Buffer, op: Operation)
    requires Sound(b) && CanApply(b, op)
    ensures Apply(b, op).isOpaque <==>
            b.isOpaque || (op.Fill? && AlphaOf(op.pixel) == 255 && (if op.area.None? then b.logicalArea else op.area.value) == b.area)
  {
    hide Cropped, StampInk, StampArea, StampClip, CopyArea, DrawnCell, Placed, OpacityByte, AlphaOf, Sound;
  }

  /** A new buffer is transparent, upright on its side, and clipped to itself. */
  lemma NewIsBlank(width: nat, height: nat, rotation: Rotation, p: Point)
    ensures var b := Blank(width, height, rotation);
      && Sound(b) && b.rotation == rotation && b.scale == 1 && !b.isOpaque && b.damage == [] && b.clips == [b.area] && b.logicalArea == b.area
      && b.area == (if Sideways(rotation) then Rectangle(0, 0, height, width) else Rectangle(0, 0, width, height))
      && (OnPicture(b, p) ==> Get(b, p) == 0)
  {
    hide Index;
    var b := Blank(width, height, rotation);
    if OnPicture(b, p) {
      IndexInBounds(b, p);
    }
  }

  /** A logical pixel is a square of device pixels; what is left at the margin belongs to none. */
  lemma ScaleIsSet(b: Buffer, scale: nat)
    requires scale >= 1
    ensures var c := WithScale(b, scale);
      && c.scale == scale && c == b.(scale := scale, logicalArea := c.logicalArea)
      && c.logicalArea.x == b.logicalArea.x && c.logicalArea.y == b.logicalArea.y
      && Times(c.logicalArea.width, scale) <= b.area.width < Times(c.logicalArea.width, scale) + scale
      && Times(c.logicalArea.height, scale) <= b.area.height < Times(c.logicalArea.height, scale) + scale
  {
    hide Truncated;
    TruncatedIsTowardsZero(b.area.width, scale);
    TruncatedIsTowardsZero(b.area.height, scale);
  }

  /** Turning keeps memory, and the picture changes sides with the logical area exactly when one rotation is sideways and the other is not. */
  lemma TurnIsSet(b: Buffer, rotation: Rotation)
    requires b.scale >= 1
    ensures var c := WithRotation(b, rotation);
      && c.rotation == rotation && c.memory == b.memory && c.damage == b.damage && c.isOpaque == b.isOpaque && c.scale == b.scale
      && (Sideways(b.rotation) == Sideways(rotation) ==> c.area == b.area && c.logicalArea == b.logicalArea)
      && (Sideways(b.rotation) != Sideways(rotation) ==>
            && c.area == Rectangle(b.area.x, b.area.y, b.area.height, b.area.width)
            && c.logicalArea == WithScale(c, b.scale).logicalArea)
      && c.clips == if rotation == b.rotation then b.clips else [Upscaled(c.area, b.scale)]
  {
    hide Truncated, Upscaled;
  }

  /** A buffer turned upright has the same picture, mark and scale, its own logical area, one clip, and no damage. */
  lemma UprightIsTheSamePicture(b: Buffer, p: Point)
    requires Sound(b) && OnPicture(b, p)
    ensures var r := RotatedUpright(b);
      && Sound(r) && OnPicture(r, p) && Get(r, p) == Get(b, p)
      && r.rotation.Upright? && r.area == b.area && r.isOpaque == b.isOpaque && r.scale == b.scale && r.damage == [] && r.clips == [b.area]
      && Times(r.logicalArea.width, b.scale) <= b.area.width < Times(r.logicalArea.width, b.scale) + b.scale
      && Times(r.logicalArea.height, b.scale) <= b.area.height < Times(r.logicalArea.height, b.scale) + b.scale
  {
    hide Index, Truncated, Picture;
    var r := RotatedUpright(b);
    TruncatedIsTowardsZero(b.area.width, b.scale);
    TruncatedIsTowardsZero(b.area.height, b.scale);
    ShownPixel(b, p);
    SameMemorySamePixel(Shown(b), r, p);
  }
}
