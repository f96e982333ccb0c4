/** The dithered colours of a gradient (src/libply-splash-core/ply-pixel-buffer.c). */
module Gradients {
  import opened Base
  import opened Arithmetic
  import opened Pixels
  import opened Rectangles

  /** A channel is kept with 23 fractional bits; noise has 24 bits, one of which overlaps the channel. */
  const UNIT: nat := 0x80_0000
  const NOISE_SPAN: nat := 0x100_0000
  const FIRST_NOISE: nat := 0x10_0001

  /** The next noise: three times the last, in 24 bits. */
  function Randomized(noise: nat): (n: nat)
    ensures n < NOISE_SPAN
  {
    (noise + noise * 2) % NOISE_SPAN
  }

  function Noise(n: nat): (r: nat)
    ensures r < NOISE_SPAN
  {
    if n == 0 then FIRST_NOISE else Randomized(Noise(n - 1))
  }

  /** What a channel changes by from row to row; C division drops the fraction. */
  function StepOf(start: byte, end: byte, height: nat): int
    requires height >= 1
  {
    Truncated((end - start) * UNIT, height)
  }

  /** A channel in a row, with its fraction. */
  function Level(start: byte, end: byte, height: nat, row: nat): int
    requires height >= 1
  {
    start * UNIT + Times(StepOf(start, end, height), row)
  }

  lemma TruncatedTimes(a: int, height: nat, row: nat)
    requires height >= 1 && row <= height
    ensures a >= 0 ==> 0 <= Times(Truncated(a, height), row) <= a
    ensures a <= 0 ==> a <= Times(Truncated(a, height), row) <= 0
  {
    var m := if a >= 0 then a else 0 - a;
    QuotientTimes(m, height);
    NegatedTimes(m / height, row);
    hide Times;
    TimesIsBounded(m / height, row, m / height, height);
  }

  lemma QuotientTimes(m: nat, height: nat)
    requires height >= 1
    ensures Times(m / height, height) <= m
  {
    assert m == m / height * height + m % height;
  }

  lemma NegatedTimes(q: int, row: int)
    ensures Times(0 - q, row) == 0 - Times(q, row)
  {
    Distributes(0, q, row);
  }

  /** No channel leaves the range between its two colours, so none wraps around on its way. */
  lemma LevelIsBetween(start: byte, end: byte, height: nat, row: nat)
    requires height >= 1 && row <= height
    ensures var level := Level(start, end, height, row);
      if start <= end then start * UNIT <= level <= end * UNIT else end * UNIT <= level <= start * UNIT
  {
    hide Truncated, Times;
    TruncatedTimes((end - start) * UNIT, height, row);
  }

  /** A level and noise added, without their fractions; the bits above the channel are masked out. */
  function Dithered(level: nat, noise: nat): byte {
    (level + noise) / UNIT % 256
  }

  /** Dithering adds up to two steps, and it keeps a channel from falling exactly when it does not carry past the top. */
  lemma DitheredIff(level: nat, noise: nat)
    requires level <= 255 * UNIT && noise < NOISE_SPAN
    ensures var carried := (level + noise) / UNIT;
      && level / UNIT <= carried <= level / UNIT + 2
      && Dithered(level, noise) == (if carried < 256 then carried else carried - 256)
      && (level / UNIT <= Dithered(level, noise) <==> level + noise < 256 * UNIT)
  {
  }

  /** A pixel of a row; its three channels take the next three noises. */
  function Shade(start: Pixel, end: Pixel, height: nat, row: nat, n: nat): Pixel
    requires 1 <= height && row <= height
  {
    LevelIsBetween(RedOf(start), RedOf(end), height, row);
    LevelIsBetween(GreenOf(start), GreenOf(end), height, row);
    LevelIsBetween(BlueOf(start), BlueOf(end), height, row);
    Packed(OPAQUE, Dithered(Level(RedOf(start), RedOf(end), height, row), Noise(3 * n + 1)),
           Dithered(Level(GreenOf(start), GreenOf(end), height, row), Noise(3 * n + 2)),
           Dithered(Level(BlueOf(start), BlueOf(end), height, row), Noise(3 * n + 3)))
  }

  const UNROLLED: nat := 8

  /** Pixels shaded in a row: wide rows of an upright buffer repeat their first eight. */
  function PixelsPerRow(crop: Rectangle, isUnrolled: bool): nat {
    if isUnrolled then UNROLLED else crop.width
  }

  /** The pixel of the gradient at a place. */
  function GradientPixel(crop: Rectangle, isUnrolled: bool, start: Pixel, end: Pixel, height: nat, x: int, y: int): Pixel {
    if !(Contains(crop, x, y) && 0 <= y < height) then 0
    else
      var column := if isUnrolled then (x - crop.x) % UNROLLED else x - crop.x;
      Shade(start, end, height, y, Times(y - crop.y, PixelsPerRow(crop, isUnrolled)) + column)
  }

  /** A gradient from white to white begins with a red pixel: green and blue carry past the top. */
  lemma WhiteGradientIsNotWhite(height: nat)
    requires height >= 1
    ensures Shade(0xFFFF_FFFF, 0xFFFF_FFFF, height, 0, 0) == 0xFFFF_0000
  {
    assert RedOf(0xFFFF_FFFF) == 255 && GreenOf(0xFFFF_FFFF) == 255 && BlueOf(0xFFFF_FFFF) == 255;
    LevelIsBetween(255, 255, height, 0);
    assert Noise(1) == Randomized(Noise(0)) == 0x30_0003;
    assert Noise(2) == Randomized(Noise(1)) == 0x90_0009;
    assert Noise(3) == Randomized(Noise(2)) == 0xB0_001B;
  }

  /** The first row has the first colour, every row the same step towards the last, and the row after the last falls short by less than a step's rounding. */
  lemma LevelRuns(start: byte, end: byte, height: nat, row: nat)
    requires height >= 1
    ensures Level(start, end, height, 0) == start * UNIT
    ensures var step := Level(start, end, height, row + 1) - Level(start, end, height, row);
      && (start <= end ==> step >= 0) && (start >= end ==> step <= 0)
      && step == Level(start, end, height, 1) - Level(start, end, height, 0)
    ensures if start <= end then end * UNIT - height < Level(start, end, height, height) <= end * UNIT
            else end * UNIT <= Level(start, end, height, height) < end * UNIT + height
  {
    var a := (end - start) * UNIT;
    var q := Truncated(a, height);
    Distributes(row, 1, q);
    assert Times(q, row + 1) == Times(q, row) + q && Times(q, 1) == q && Times(q, 0) == 0;
    FallsShort(a, height);
  }

  lemma FallsShort(a: int, height: nat)
    requires height >= 1
    ensures var q := Truncated(a, height);
      if a >= 0 then q >= 0 && a - height < Times(q, height) <= a else q <= 0 && a <= Times(q, height) < a + height
  {
    var m := if a >= 0 then a else 0 - a;
    assert m == m / height * height + m % height;
    NegatedTimes(m / height, height);
  }

  /** Each channel of a pixel is that of its row, up to two steps more. */
  predicate IsNear(channel: byte, level: int) {
    var steps := level / UNIT;
    channel == steps % 256 || channel == (steps + 1) % 256 || channel == (steps + 2) % 256
  }

  lemma DitheredIsNear(level: nat, noise: nat)
    requires level <= 255 * UNIT && noise < NOISE_SPAN
    ensures IsNear(Dithered(level, noise), level)
  {
    DitheredIff(level, noise);
  }

  /** A pixel of the gradient: opaque, and red, green and blue each near their own level of its row. */
  lemma GradientPixelIsNear(crop: Rectangle, isUnrolled: bool, start: Pixel, end: Pixel, height: nat, x: int, y: int)
    requires Contains(crop, x, y) && 0 <= y < height
    ensures var p := GradientPixel(crop, isUnrolled, start, end, height, x, y);
      && AlphaOf(p) == 255
      && IsNear(RedOf(p), Level(RedOf(start), RedOf(end), height, y))
      && IsNear(GreenOf(p), Level(GreenOf(start), GreenOf(end), height, y))
      && IsNear(BlueOf(p), Level(BlueOf(start), BlueOf(end), height, y))
  {
    hide AlphaOf, RedOf, GreenOf, BlueOf, Packed, Level, Dithered, Noise, IsNear, Times;
    var column := if isUnrolled then (x - crop.x) % UNROLLED else x - crop.x;
    var n := Times(y - crop.y, PixelsPerRow(crop, isUnrolled)) + column;
    LevelIsBetween(RedOf(start), RedOf(end), height, y);
    LevelIsBetween(GreenOf(start), GreenOf(end), height, y);
    LevelIsBetween(BlueOf(start), BlueOf(end), height, y);
    var red, green, blue := Level(RedOf(start), RedOf(end), height, y), Level(GreenOf(start), GreenOf(end), height, y),
                            Level(BlueOf(start), BlueOf(end), height, y);
    DitheredIsNear(red, Noise(3 * n + 1));
    DitheredIsNear(green, Noise(3 * n + 2));
    DitheredIsNear(blue, Noise(3 * n + 3));
    PackedChannels(OPAQUE, Dithered(red, Noise(3 * n + 1)), Dithered(green, Noise(3 * n + 2)), Dithered(blue, Noise(3 * n + 3)));
  }

  /** One channel of the k-th pixel shaded, in a row of the area; `place` is 1 for red, 2 for green and 3 for blue. */
  predicate IsShaded(channel: byte, start: byte, end: byte, height: nat, row: nat, k: nat, place: nat)
    requires height >= 1
  {
    channel == (Level(start, end, height, row) + Noise(3 * k + place)) / 0x80_0000 % 256
  }

  /**
   Every channel takes one noise more: pixels are shaded in reading order, three noises
   each, but for the wide rows of an upright buffer, which repeat their first eight.
   Rows are counted from the top of the buffer, not of the area.
   */
  lemma PixelsTakeNoiseInOrder(crop: Rectangle, isUnrolled: bool, start: Pixel, end: Pixel, height: nat, x: int, y: int)
    requires Contains(crop, x, y) && 0 <= y < height
    ensures var p := GradientPixel(crop, isUnrolled, start, end, height, x, y);
      var k := if isUnrolled then (y - crop.y) * 8 + (x - crop.x) % 8 else (y - crop.y) * crop.width + (x - crop.x);
      && k >= 0
      && IsShaded(RedOf(p), RedOf(start), RedOf(end), height, y, k, 1)
      && IsShaded(GreenOf(p), GreenOf(start), GreenOf(end), height, y, k, 2)
      && IsShaded(BlueOf(p), BlueOf(start), BlueOf(end), height, y, k, 3)
  {
    hide AlphaOf, RedOf, GreenOf, BlueOf, Packed, Level, Noise;
    var column := if isUnrolled then (x - crop.x) % UNROLLED else x - crop.x;
    var n := Times(y - crop.y, PixelsPerRow(crop, isUnrolled)) + column;
    LevelIsBetween(RedOf(start), RedOf(end), height, y);
    LevelIsBetween(GreenOf(start), GreenOf(end), height, y);
    LevelIsBetween(BlueOf(start), BlueOf(end), height, y);
    var red, green, blue := Level(RedOf(start), RedOf(end), height, y), Level(GreenOf(start), GreenOf(end), height, y),
                            Level(BlueOf(start), BlueOf(end), height, y);
    PackedChannels(OPAQUE, Dithered(red, Noise(3 * n + 1)), Dithered(green, Noise(3 * n + 2)), Dithered(blue, Noise(3 * n + 3)));
  }

  /** The noise begins with 0x100001, and each is three times the last in 24 bits. */
  lemma NoiseIs(n: nat)
    ensures Noise(0) == 0x10_0001 && Noise(n + 1) == 3 * Noise(n) % 0x100_0000
  {
  }
}
