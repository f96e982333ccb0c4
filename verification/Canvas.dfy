/**
 Pixel buffers as values (src/libply-splash-core/ply-pixel-buffer.c): one picture,
 four ways to lay it out in memory.

 The picture is `area.width` by `area.height` device pixels.  Memory holds it row
 by row as the device scans it out, which is the picture rotated.
 */
module Canvas {
  import opened Base
  import opened Arithmetic
  import opened Pixels
  import opened Rectangles

  datatype Rotation = Upright | UpsideDown | Clockwise | CounterClockwise

  predicate Sideways(r: Rotation) {
    r.Clockwise? || r.CounterClockwise?
  }

  datatype Buffer = Buffer(
    memory: seq<Pixel>,
    area: Rectangle,
    logicalArea: Rectangle,
    clips: seq<Rectangle>,
    damage: seq<Rectangle>,
    isOpaque: bool,
    scale: nat,
    rotation: Rotation)

  /** The first clip is the whole picture; pushed clips follow it. */
  predicate Sound(b: Buffer) {
    && b.area.x == 0 && b.area.y == 0
    && |b.memory| == Cells(b.area)
    && b.scale >= 1
    && b.clips != [] && b.clips[0] == b.area
  }

  function Cells(area: Rectangle): nat {
    Times(area.width, area.height)
  }

  datatype Point = Point(x: int, y: int)

  predicate OnPicture(b: Buffer, p: Point) {
    Contains(b.area, p.x, p.y)
  }

  // ----- the four layouts

  /** set_pixel and get_pixel: the index of a pixel in memory. */
  function Index(b: Buffer, p: Point): int {
    var w, h := b.area.width, b.area.height;
    match b.rotation
    case Upright => p.y * w + p.x
    case UpsideDown => (h - 1 - p.y) * w + (w - 1 - p.x)
    case Clockwise => p.x * h + (h - 1 - p.y)
    case CounterClockwise => (w - 1 - p.x) * h + p.y
  }

  /** The length of a row of memory. */
  function Stride(b: Buffer): nat {
    if Sideways(b.rotation) then b.area.height else b.area.width
  }

  function Rows(b: Buffer): nat {
    if Sideways(b.rotation) then b.area.width else b.area.height
  }

  /** Where a pixel of the picture is scanned out, */
  function Physical(b: Buffer, p: Point): Point {
    var w, h := b.area.width, b.area.height;
    match b.rotation
    case Upright => p
    case UpsideDown => Point(w - 1 - p.x, h - 1 - p.y)
    case Clockwise => Point(h - 1 - p.y, p.x)
    case CounterClockwise => Point(p.y, w - 1 - p.x)
  }

  /** and the pixel scanned out at a place. */
  function Logical(b: Buffer, q: Point): Point {
    var w, h := b.area.width, b.area.height;
    match b.rotation
    case Upright => q
    case UpsideDown => Point(w - 1 - q.x, h - 1 - q.y)
    case Clockwise => Point(q.y, h - 1 - q.x)
    case CounterClockwise => Point(w - 1 - q.y, q.x)
  }

  function Column(i: int, stride: nat): int {
    if stride == 0 then 0 else i % stride
  }

  function Row(i: int, stride: nat): int {
    if stride == 0 then 0 else i / stride
  }

  /** The place a memory cell is scanned out at. */
  function Scanned(b: Buffer, i: int): Point {
    Point(Column(i, Stride(b)), Row(i, Stride(b)))
  }

  /** The pixel of the picture that a memory cell holds. */
  function Place(b: Buffer, i: int): Point {
    Logical(b, Scanned(b, i))
  }

  predicate Scannable(b: Buffer, q: Point) {
    0 <= q.x < Stride(b) && 0 <= q.y < Rows(b)
  }

  lemma PhysicalIsBijection(b: Buffer, p: Point)
    ensures Logical(b, Physical(b, p)) == p && Physical(b, Logical(b, p)) == p
    ensures b.area.x == 0 && b.area.y == 0 ==> (OnPicture(b, p) <==> Scannable(b, Physical(b, p)))
  {
  }

  lemma IndexIsRowMajor(b: Buffer, p: Point)
    ensures Index(b, p) == Physical(b, p).y * Stride(b) + Physical(b, p).x
  {
  }

  lemma CellsAreRows(b: Buffer)
    ensures Cells(b.area) == Rows(b) * Stride(b)
  {
  }

  lemma RowMajorInBounds(stride: nat, rows: nat, q: Point)
    requires 0 <= q.x < stride && 0 <= q.y < rows
    ensures 0 <= q.y * stride + q.x < rows * stride
    ensures Column(q.y * stride + q.x, stride) == q.x && Row(q.y * stride + q.x, stride) == q.y
  {
    RemainderOf(stride, q.y, q.x);
    Distributes(rows, q.y, stride);
    MultipleIsLarge(rows - q.y, stride);
    if q.y > 0 {
      MultipleIsLarge(q.y, stride);
    }
  }

  lemma CellInBounds(stride: nat, rows: nat, i: int)
    requires 0 <= i < rows * stride
    ensures 0 <= Column(i, stride) < stride && 0 <= Row(i, stride) < rows
    ensures Row(i, stride) * stride + Column(i, stride) == i
  {
    assert stride == 0 ==> rows * stride == 0;
    var q := i / stride;
    if q >= rows {
      Distributes(q, rows, stride);
      if q > rows { MultipleIsLarge(q - rows, stride); }
    } else if q < 0 {
      MultipleIsLarge(q, stride);
    }
  }

  /** Every pixel of the picture has its own cell inside memory, */
  lemma IndexInBounds(b: Buffer, p: Point)
    requires Sound(b) && OnPicture(b, p)
    ensures 0 <= Index(b, p) < |b.memory| && Place(b, Index(b, p)) == p
  {
    hide Column, Row, Index;
    PhysicalIsBijection(b, p);
    IndexIsRowMajor(b, p);
    CellsAreRows(b);
    RowMajorInBounds(Stride(b), Rows(b), Physical(b, p));
  }

  /** and every cell holds one. */
  lemma PlaceOnPicture(b: Buffer, i: int)
    requires Sound(b) && 0 <= i < |b.memory|
    ensures OnPicture(b, Place(b, i)) && Index(b, Place(b, i)) == i && Scannable(b, Scanned(b, i))
  {
    hide Column, Row, Index;
    CellsAreRows(b);
    CellInBounds(Stride(b), Rows(b), i);
    PhysicalIsBijection(b, Scanned(b, i));
    PhysicalIsBijection(b, Place(b, i));
    IndexIsRowMajor(b, Place(b, i));
  }

  /** Different pixels have different cells. */
  lemma IndexIsInjective(b: Buffer, p: Point, q: Point)
    requires Sound(b) && OnPicture(b, p) && OnPicture(b, q) && Index(b, p) == Index(b, q)
    ensures p == q
  {
    hide Place, Index;
    IndexInBounds(b, p);
    IndexInBounds(b, q);
  }

  function Get(b: Buffer, p: Point): Pixel
    requires Sound(b) && OnPicture(b, p)
  {
    IndexInBounds(b, p);
    b.memory[Index(b, p)]
  }

  // ----- drawing

  /** What is drawn with. */
  datatype Ink =
    | Solid(pixel: Pixel)
    | Image(data: seq<Pixel>, fill: Rectangle, opacity: byte)
    | Sampled(sample: (int, int) -> Pixel, opacity: byte)
    | Copy(data: seq<Pixel>, fill: Rectangle)
    | Shading(shade: (int, int) -> Pixel)

  /** The index of the data drawn at a place, for data laid over the rectangle `fill`. */
  function DataIndex(fill: Rectangle, p: Point): int {
    fill.width * (p.y - fill.y) + p.x - fill.x
  }

  function Datum(data: seq<Pixel>, fill: Rectangle, p: Point): Pixel {
    var i := DataIndex(fill, p);
    if 0 <= i < |data| then data[i] else 0
  }

  /** Data pixels: transparent ones are skipped, the others made translucent and blended. */
  function Stamped(datum: Pixel, opacity: byte, backdrop: Pixel): Pixel {
    if AlphaOf(datum) == 0 then backdrop else Inked(Translucent(datum, opacity), backdrop)
  }

  /** A gradient's pixels have full alpha, whatever its dithered colours. */
  function MadeOpaque(p: Pixel): Pixel {
    Packed(OPAQUE, RedOf(p), GreenOf(p), BlueOf(p))
  }

  /** The new pixel at a place. */
  function Color(ink: Ink, p: Point, backdrop: Pixel): Pixel {
    match ink
    case Solid(pixel) => Inked(pixel, backdrop)
    case Image(data, fill, opacity) => Stamped(Datum(data, fill, p), opacity, backdrop)
    case Sampled(sample, opacity) => Stamped(sample(p.x, p.y), opacity, backdrop)
    case Copy(data, fill) => Datum(data, fill, p)
    case Shading(shade) => MadeOpaque(shade(p.x, p.y))
  }

  /** The buffer once `ink` was drawn inside `area`. */
  function Drawn(b: Buffer, area: Rectangle, ink: Ink): (d: Buffer)
    ensures |d.memory| == |b.memory|
  {
    b.(memory := seq(|b.memory|, i requires 0 <= i < |b.memory| => DrawnCell(b, area, ink, i)))
  }

  function DrawnCell(b: Buffer, area: Rectangle, ink: Ink, i: nat): Pixel
    requires i < |b.memory|
  {
    var p := Place(b, i);
    if Contains(area, p.x, p.y) then Color(ink, p, b.memory[i]) else b.memory[i]
  }

  /** In the picture: pixels inside the area are drawn on, the others are not. */
  lemma DrawnPixel(b: Buffer, area: Rectangle, ink: Ink, p: Point)
    requires Sound(b) && OnPicture(b, p)
    ensures Sound(Drawn(b, area, ink)) && OnPicture(Drawn(b, area, ink), p)
    ensures Get(Drawn(b, area, ink), p) == if Contains(area, p.x, p.y) then Color(ink, p, Get(b, p)) else Get(b, p)
  {
    hide Index, Place, Color;
    IndexInBounds(b, p);
    SameShapeSamePlaces(b, Drawn(b, area, ink), p);
  }

  lemma SameShapeSamePlaces(b: Buffer, c: Buffer, p: Point)
    requires b.area == c.area && b.rotation == c.rotation
    ensures Index(b, p) == Index(c, p)
    ensures forall i :: Place(b, i) == Place(c, i)
  {
  }

  // ----- damage

  /** add_updated_area: the rectangle handed to the region. */
  function Damaged(b: Buffer, r: Rectangle): Rectangle {
    var w, h := b.area.width, b.area.height;
    match b.rotation
    case Upright => r
    case UpsideDown => Rectangle(w - r.width - r.x, h - r.height - r.y, r.width, r.height)
    case Clockwise => Rectangle(h - r.height - r.y, r.x, r.height, r.width)
    case CounterClockwise => Rectangle(r.y, w - r.width - r.x, r.height, r.width)
  }

  /** A region is the union of the rectangles added to it. */
  ghost predicate Covered(damage: seq<Rectangle>, q: Point) {
    exists i :: 0 <= i < |damage| && Contains(damage[i], q.x, q.y)
  }

  /** The damage is exactly the image of the area where the device scans it out. */
  lemma DamageIsExact(b: Buffer, r: Rectangle, q: Point)
    ensures Contains(Damaged(b, r), q.x, q.y) <==> Contains(r, Logical(b, q).x, Logical(b, q).y)
  {
  }

  // ----- the operations

  function Cropped(b: Buffer, area: Rectangle): Rectangle {
    Clipped(Upscaled(area, b.scale), b.clips)
  }

  lemma CroppedOnPicture(b: Buffer, r: Rectangle, p: Point)
    requires Sound(b) && Contains(Clipped(r, b.clips), p.x, p.y)
    ensures OnPicture(b, p) && Contains(r, p.x, p.y)
  {
    ClippedIsIntersection(r, b.clips, p.x, p.y);
    assert Contains(b.clips[0], p.x, p.y);
  }

  function WithDamage(b: Buffer, r: Rectangle): Buffer {
    b.(damage := b.damage + [Damaged(b, r)])
  }

  /** fill_area_with_pixel_value; no area means the whole picture. */
  function Filled(b: Buffer, area: Option<Rectangle>, pixel: Pixel): Buffer {
    var fill := if area.None? then b.logicalArea else area.value;
    var crop := Cropped(b, fill);
    var marked := b.(isOpaque := b.isOpaque || (fill == b.area && AlphaOf(pixel) == OPAQUE));
    WithDamage(Drawn(marked, crop, Solid(pixel)), crop)
  }

  function OpacityByte(opacity: real): byte
    requires 0.0 <= opacity <= 1.0
  {
    (opacity * 255.0).Floor
  }

  /** The device area that data for `fill`, at `scale`, is drawn into. */
  function StampArea(b: Buffer, fill: Rectangle, clip: Option<Rectangle>, scale: nat): Rectangle
    requires scale >= 1
  {
    StampClip(b, Cropped(b, Downscaled(fill, scale)), clip, scale)
  }

  function StampClip(b: Buffer, crop: Rectangle, clip: Option<Rectangle>, scale: nat): Rectangle
    requires scale >= 1
  {
    if clip.None? then crop else Intersect(crop, Upscaled(Downscaled(clip.value, scale), b.scale))
  }

  function StampInk(b: Buffer, fill: Rectangle, data: seq<Pixel>, opacity: byte, scale: nat, sample: (int, int) -> Pixel): Ink {
    if b.scale == scale then Image(data, fill, opacity) else Sampled(sample, opacity)
  }

  function Stamp(b: Buffer, crop: Rectangle, ink: Ink): Buffer {
    if IsEmpty(crop) then b else WithDamage(Drawn(b, crop, ink), crop)
  }

  /** fill_with_argb32_data_at_opacity_with_clip_and_scale, with a given area. */
  function StampedData(b: Buffer, fill: Rectangle, clip: Option<Rectangle>, data: seq<Pixel>, opacity: byte, scale: nat,
                       sample: (int, int) -> Pixel): Buffer
    requires scale >= 1
  {
    Stamp(b, StampArea(b, fill, clip, scale), StampInk(b, fill, data, opacity, scale, sample))
  }

  /** The same without an area: the whole picture, taken as it is. */
  function StampedWhole(b: Buffer, clip: Option<Rectangle>, data: seq<Pixel>, opacity: byte, scale: nat,
                        sample: (int, int) -> Pixel): Buffer
    requires scale >= 1
  {
    Stamp(b, StampClip(b, Cropped(b, b.logicalArea), clip, scale), StampInk(b, b.logicalArea, data, opacity, scale, sample))
  }

  /** fill_with_gradient */
  function Shaded(b: Buffer, area: Option<Rectangle>, shade: (int, int) -> Pixel): Buffer {
    var crop := Cropped(b, if area.None? then b.logicalArea else area.value);
    WithDamage(Drawn(b, crop, Shading(shade)), crop)
  }

  function Pushed(b: Buffer, clip: Rectangle): Buffer {
    b.(clips := b.clips + [Upscaled(clip, b.scale)])
  }

  function Popped(b: Buffer): Buffer
    requires |b.clips| >= 1
  {
    b.(clips := b.clips[..|b.clips| - 1])
  }
}
