/**
 What drawing means: the picture, the damage, the opacity mark, and the fast path.
 */
module Pictures {
  import opened Base
  import opened Arithmetic
  import opened Pixels
  import opened Rectangles
  import opened Canvas

  datatype Operation =
    | Fill(area: Option<Rectangle>, pixel: Pixel)
    | Data(fill: Option<Rectangle>, clip: Option<Rectangle>, data: seq<Pixel>, opacity: byte, dataScale: nat,
           sample: (int, int) -> Pixel)
    | Blit(source: Buffer, xOffset: int, yOffset: int, blitClip: Option<Rectangle>, blitOpacity: real,
           blitSample: (int, int) -> Pixel)
    | Push(clipArea: Rectangle)
    | Pop

  /** Data has a scale, and so has a buffer; the first clip is never popped. */
  predicate CanApply(b: Buffer, op: Operation) {
    match op
    case Data(_, _, _, _, dataScale, _) => dataScale >= 1
    case Blit(source, _, _, _, opacity, _) => Sound(source) && Scaled(source) && 0.0 <= opacity <= 1.0
    case Pop => |b.clips| >= 2
    case _ => true
  }

  function Apply(b: Buffer, op: Operation): Buffer
    requires CanApply(b, op)
  {
    match op
    case Fill(area, pixel) => Filled(b, area, pixel)
    case Data(fill, clip, data, opacity, dataScale, sample) =>
      if fill.Some? then StampedData(b, fill.value, clip, data, opacity, dataScale, sample)
      else StampedWhole(b, clip, data, opacity, dataScale, sample)
    case Blit(source, xOffset, yOffset, clip, opacity, sample) => Blitted(b, source, xOffset, yOffset, clip, opacity, sample)
    case Push(clip) => Pushed(b, clip)
    case Pop => Popped(b)
  }

  predicate CanApplyAll(b: Buffer, ops: seq<Operation>)
    decreases ops
  {
    ops == [] || (CanApply(b, ops[0]) && CanApplyAll(Apply(b, ops[0]), ops[1..]))
  }

  function ApplyAll(b: Buffer, ops: seq<Operation>): Buffer
    requires CanApplyAll(b, ops)
    decreases ops
  {
    if ops == [] then b else ApplyAll(Apply(b, ops[0]), ops[1..])
  }

  /** What an operation draws, if it draws. */
  datatype Drawing = Nothing | Inside(area: Rectangle, ink: Ink)

  function DrawingOf(b: Buffer, op: Operation): Drawing
    requires CanApply(b, op)
  {
    match op
    case Fill(area, pixel) => Inside(Cropped(b, if area.None? then b.logicalArea else area.value), Solid(pixel))
    case Data(fill, clip, data, opacity, dataScale, sample) =>
      var crop := if fill.Some? then StampArea(b, fill.value, clip, dataScale)
                  else StampClip(b, Cropped(b, b.logicalArea), clip, dataScale);
      var ink := StampInk(b, if fill.Some? then fill.value else b.logicalArea, data, opacity, dataScale, sample);
      DrawingIn(crop, ink)
    case Blit(source, xOffset, yOffset, clip, opacity, sample) =>
      if TakesFastPath(b, source, opacity) then
        DrawingIn(CopyArea(b, source, xOffset, yOffset, clip), Copy(source.memory, Placed(source, xOffset, yOffset, b.scale)))
      else BlendedDrawing(b, op)
    case _ => Nothing
  }

  function DrawingIn(crop: Rectangle, ink: Ink): Drawing {
    if IsEmpty(crop) then Nothing else Inside(crop, ink)
  }

  /** What the general path draws. */
  function BlendedDrawing(b: Buffer, op: Operation): Drawing
    requires op.Blit? && CanApply(b, op)
  {
    var fill := Placed(op.source, op.xOffset, op.yOffset, op.source.scale);
    DrawingIn(StampArea(b, fill, op.blitClip, op.source.scale),
              StampInk(b, fill, op.source.memory, OpacityByte(op.blitOpacity), op.source.scale, op.blitSample))
  }

  /** Every operation draws inside the picture, and damages what it draws. */
  lemma ApplyDraws(b: Buffer, op: Operation)
    requires Sound(b) && CanApply(b, op)
    ensures Sound(Apply(b, op)) && Apply(b, op).area == b.area && Apply(b, op).rotation == b.rotation && Apply(b, op).scale == b.scale
    ensures match DrawingOf(b, op)
      case Nothing => Apply(b, op).memory == b.memory && Apply(b, op).damage == b.damage
      case Inside(area, ink) =>
        && Apply(b, op).memory == Drawn(b, area, ink).memory
        && Apply(b, op).damage == b.damage + [Damaged(b, area)]
        && forall x, y :: Contains(area, x, y) ==> OnPicture(b, Point(x, y))
  {
    hide Blitted, BlendedDrawing, TakesFastPath, Cropped, StampInk, StampClip;
    DrawingOnPicture(b, op);
    match op {
      case Fill(area, pixel) =>
        var crop := Cropped(b, if area.None? then b.logicalArea else area.value);
        MarkIsNotDrawn(b, Filled(b, area, pixel).isOpaque, crop, Solid(pixel));
      case Blit(_, _, _, _, _, _) => BlitDraws(b, op);
      case _ =>
    }
  }

  lemma BlitDraws(b: Buffer, op: Operation)
    requires Sound(b) && op.Blit? && CanApply(b, op)
    ensures var c := Apply(b, op); match DrawingOf(b, op)
      case Nothing => c == b
      case Inside(area, ink) => c == b.(memory := Drawn(b, area, ink).memory, damage := b.damage + [Damaged(b, area)])
  {
    hide CopyArea, StampArea, StampInk, DrawnCell, OpacityByte, Placed;
  }

  lemma BlitIsSound(canvas: Buffer, source: Buffer, xOffset: int, yOffset: int, clip: Option<Rectangle>, opacity: real,
                    sample: (int, int) -> Pixel)
    requires Sound(canvas) && source.scale >= 1 && 0.0 <= opacity <= 1.0
    ensures Sound(Blitted(canvas, source, xOffset, yOffset, clip, opacity, sample))
  {
  }

  /** The rest of the buffer does not depend on what is in memory, or on how that is laid out. */
  lemma RestIsApart(b: Buffer, c: Buffer, op: Operation)
    requires Sound(b) && Sound(c) && CanApply(b, op) && c == b.(memory := c.memory, damage := c.damage, rotation := c.rotation)
    ensures CanApply(c, op)
    ensures var d, e := Apply(b, op), Apply(c, op);
      e == d.(memory := e.memory, damage := e.damage, rotation := e.rotation) && d.rotation == b.rotation && e.rotation == c.rotation
  {
    hide Cropped, StampInk, StampClip, StampArea, CopyArea, DrawnCell, Upscaled, OpacityByte, Placed;
  }

  lemma DrawingOnPicture(b: Buffer, op: Operation)
    requires Sound(b) && CanApply(b, op)
    ensures var d := DrawingOf(b, op);
      d.Inside? ==> forall x, y :: Contains(d.area, x, y) ==> OnPicture(b, Point(x, y))
  {
    var d := DrawingOf(b, op);
    if d.Inside? {
      forall x, y | Contains(d.area, x, y) ensures OnPicture(b, Point(x, y)) {
        match op {
          case Fill(area, pixel) =>
            CroppedOnPicture(b, Upscaled(if area.None? then b.logicalArea else area.value, b.scale), Point(x, y));
          case Data(fill, clip, data, opacity, dataScale, sample) =>
            var r := if fill.Some? then Downscaled(fill.value, dataScale) else b.logicalArea;
            if clip.Some? {
              IntersectIsIntersection(Cropped(b, r), Upscaled(Downscaled(clip.value, dataScale), b.scale), x, y);
            }
            CroppedOnPicture(b, Upscaled(r, b.scale), Point(x, y));
          case Blit(source, xOffset, yOffset, clip, opacity, sample) => BlitOnPicture(b, op, Point(x, y));
        }
      }
    }
  }

  lemma BlitOnPicture(b: Buffer, op: Operation, p: Point)
    requires Sound(b) && op.Blit? && CanApply(b, op)
    requires var d := DrawingOf(b, op); d.Inside? && Contains(d.area, p.x, p.y)
    ensures OnPicture(b, p)
  {
    hide Clipped, Upscaled, Downscaled, OpacityByte, StampInk, Intersect;
    var source, clip := op.source, op.blitClip;
    if TakesFastPath(b, source, op.blitOpacity) {
      CopyReadsInBounds(b, source, op.xOffset, op.yOffset, clip, p);
    } else {
      var r := Downscaled(Placed(source, op.xOffset, op.yOffset, source.scale), source.scale);
      if clip.Some? {
        IntersectIsIntersection(Cropped(b, r), Upscaled(Downscaled(clip.value, source.scale), b.scale), p.x, p.y);
      }
      CroppedOnPicture(b, Upscaled(r, b.scale), p);
    }
  }

  lemma MarkIsNotDrawn(b: Buffer, mark: bool, area: Rectangle, ink: Ink)
    ensures Drawn(b.(isOpaque := mark), area, ink).memory == Drawn(b, area, ink).memory
  {
    var c := b.(isOpaque := mark);
    forall i | 0 <= i < |b.memory| ensures DrawnCell(c, area, ink, i) == DrawnCell(b, area, ink, i) {
      SameShapeSamePlaces(b, c, Point(0, 0));
    }
  }

  // ----- rotation

  /** The picture, row by row: memory as an upright device would have it. */
  function Picture(b: Buffer): (p: seq<Pixel>)
    requires Sound(b)
    ensures |p| == |b.memory|
  {
    seq(|b.memory|, i requires 0 <= i < |b.memory| => PictureCell(b, i))
  }

  function PictureCell(b: Buffer, i: nat): Pixel
    requires Sound(b) && i < |b.memory|
  {
    var upright := b.(rotation := Upright);
    PlaceOnPicture(upright, i);
    Get(b, Place(upright, i))
  }

  /** The upright buffer with the same picture and no damage. */
  function Shown(b: Buffer): (s: Buffer)
    requires Sound(b)
    ensures Sound(s)
  {
    b.(rotation := Upright, memory := Picture(b), damage := [])
  }

  lemma ShownPixel(b: Buffer, p: Point)
    requires Sound(b) && OnPicture(b, p)
    ensures OnPicture(Shown(b), p) && Get(Shown(b), p) == Get(b, p)
  {
    hide Index, Place;
    var upright := b.(rotation := Upright);
    SameShapeSamePlaces(upright, Shown(b), p);
    IndexInBounds(upright, p);
  }

  /** Buffers that agree on every pixel of the picture have the same memory. */
  lemma PixelsDetermineMemory(b: Buffer, c: Buffer)
    requires Sound(b) && Sound(c) && b.area == c.area && b.rotation == c.rotation
    requires forall p :: OnPicture(b, p) ==> Get(b, p) == Get(c, p)
    ensures b.memory == c.memory
  {
    hide Index, Place;
    forall i | 0 <= i < |b.memory| ensures b.memory[i] == c.memory[i] {
      PlaceOnPicture(b, i);
      SameShapeSamePlaces(b, c, Place(b, i));
      assert Get(b, Place(b, i)) == Get(c, Place(b, i));
    }
  }

  /** Drawing on a rotated buffer draws the same on its picture. */
  lemma DrawingCommutes(b: Buffer, area: Rectangle, ink: Ink)
    requires Sound(b)
    ensures Sound(Drawn(b, area, ink)) && Shown(Drawn(b, area, ink)).memory == Drawn(Shown(b), area, ink).memory
  {
    var left, right := Shown(Drawn(b, area, ink)), Drawn(Shown(b), area, ink);
    forall p | OnPicture(left, p) ensures Get(left, p) == Get(right, p) {
      DrawnPixel(b, area, ink, p);
      ShownPixel(Drawn(b, area, ink), p);
      ShownPixel(b, p);
      DrawnPixel(Shown(b), area, ink, p);
    }
    PixelsDetermineMemory(left, right);
  }

  function WithoutDamage(b: Buffer): Buffer {
    b.(damage := [])
  }

  lemma SameMemoryIsShown(b: Buffer, c: Buffer)
    requires Sound(b) && Sound(c) && b.area == c.area && b.rotation == c.rotation && b.memory == c.memory
    ensures Shown(b).memory == Shown(c).memory
  {
    forall p | OnPicture(Shown(b), p) ensures Get(Shown(b), p) == Get(Shown(c), p) {
      ShownPixel(b, p);
      ShownPixel(c, p);
      SameShapeSamePlaces(b, c, p);
    }
    PixelsDetermineMemory(Shown(b), Shown(c));
  }

  /** A blit that the fast path may take draws what the general path would. */
  predicate CopiesAsItBlends(op: Operation, scale: nat)
    requires scale >= 1
  {
    op.Blit? && op.blitOpacity == 1.0 && op.source.isOpaque && op.source.scale == scale ==>
      && AllOpaque(op.source.memory)
      && (op.blitClip.Some? ==> LookAlike(op.blitClip.value, Snapped(op.blitClip.value, scale)))
  }

  predicate CopyAsTheyBlend(ops: seq<Operation>, scale: nat)
    requires scale >= 1
  {
    forall i :: 0 <= i < |ops| ==> CopiesAsItBlends(ops[i], scale)
  }

  lemma CopyIsBlend(s: Buffer, op: Operation)
    requires Sound(s) && op.Blit? && CanApply(s, op) && CopiesAsItBlends(op, s.scale)
    ensures Apply(s, op) == BlittedSlowly(s, op.source, op.xOffset, op.yOffset, op.blitClip, op.blitOpacity, op.blitSample)
  {
    hide Copied, BlittedSlowly, LookAlike, Snapped, AllOpaque;
    if TakesFastPath(s, op.source, op.blitOpacity) {
      if op.blitClip.None? {
        FastPathEqualsGeneralPath(s, op.source, op.xOffset, op.yOffset, None, op.blitSample);
      } else {
        AlikeClipsAgree(op.blitClip.value, s, op.source, op.xOffset, op.yOffset, op.blitSample);
      }
    }
  }

  /** The upright buffer with the same picture draws the same. */
  lemma ShownDrawsTheSame(b: Buffer, op: Operation)
    requires Sound(b) && CanApply(b, op) && CopiesAsItBlends(op, b.scale)
    ensures var s, t := Shown(b), Apply(Shown(b), op); match DrawingOf(b, op)
      case Nothing => t.memory == s.memory
      case Inside(area, ink) => t.memory == Drawn(s, area, ink).memory
  {
    hide Picture, DrawnCell, Clipped, Upscaled, Downscaled, OpacityByte, CopiesAsItBlends, Scaled, AllOpaque;
    var s := Shown(b);
    ApplyDraws(s, op);
    if op.Blit? && !b.rotation.Upright? {
      CopyIsBlend(s, op);
      assert BlendedDrawing(s, op) == BlendedDrawing(b, op) == DrawingOf(b, op);
    } else {
      assert DrawingOf(s, op) == DrawingOf(b, op);
    }
  }

  lemma OperationCommutes(b: Buffer, op: Operation)
    requires Sound(b) && CanApply(b, op) && CopiesAsItBlends(op, b.scale)
    ensures Sound(Apply(b, op)) && CanApply(Shown(b), op)
    ensures Shown(Apply(b, op)) == WithoutDamage(Apply(Shown(b), op))
  {
    hide Picture, DrawnCell, CopiesAsItBlends, DrawingOf, Apply, CanApply;
    var s := Shown(b);
    RestIsApart(b, s, op);
    ApplyDraws(b, op);
    ApplyDraws(s, op);
    ShownDrawsTheSame(b, op);
    match DrawingOf(b, op) {
      case Nothing =>
        SameMemoryIsShown(b, Apply(b, op));
      case Inside(area, ink) =>
        DrawingCommutes(b, area, ink);
        SameMemoryIsShown(Drawn(b, area, ink), Apply(b, op));
    }
  }

  lemma {:induction false} DamageIsNotRead(b: Buffer, ops: seq<Operation>)
    requires CanApplyAll(WithoutDamage(b), ops) && Sound(b)
    ensures CanApplyAll(b, ops)
    ensures WithoutDamage(ApplyAll(b, ops)) == WithoutDamage(ApplyAll(WithoutDamage(b), ops))
    decreases ops
  {
    if ops != [] {
      DamageIsNotReadOnce(b, ops[0]);
      var c := Apply(b, ops[0]);
      var d := Apply(WithoutDamage(b), ops[0]);
      assert WithoutDamage(c) == WithoutDamage(d);
      ApplyDraws(b, ops[0]);
      ApplyDraws(WithoutDamage(b), ops[0]);
      CanApplyWithoutDamage(d, ops[1..]);
      DamageIsNotRead(c, ops[1..]);
      DamageIsNotRead(d, ops[1..]);
    }
  }

  lemma {:induction false} CanApplyWithoutDamage(b: Buffer, ops: seq<Operation>)
    requires CanApplyAll(b, ops) && Sound(b)
    ensures CanApplyAll(WithoutDamage(b), ops)
    decreases ops
  {
    if ops != [] {
      DamageIsNotReadOnce(b, ops[0]);
      ApplyDraws(b, ops[0]);
      ApplyDraws(WithoutDamage(b), ops[0]);
      var c, d := Apply(b, ops[0]), Apply(WithoutDamage(b), ops[0]);
      CanApplyWithoutDamage(c, ops[1..]);
      assert WithoutDamage(c) == WithoutDamage(d);
      CanApplyWithDamage(d, ops[1..]);
    }
  }

  lemma {:induction false} CanApplyWithDamage(b: Buffer, ops: seq<Operation>)
    requires CanApplyAll(WithoutDamage(b), ops) && Sound(b)
    ensures CanApplyAll(b, ops)
    decreases ops
  {
    if ops != [] {
      DamageIsNotReadOnce(b, ops[0]);
      ApplyDraws(b, ops[0]);
      ApplyDraws(WithoutDamage(b), ops[0]);
      var c, d := Apply(b, ops[0]), Apply(WithoutDamage(b), ops[0]);
      CanApplyWithoutDamage(d, ops[1..]);
      assert WithoutDamage(c) == WithoutDamage(d);
      CanApplyWithDamage(c, ops[1..]);
    }
  }

  lemma DamageIsNotReadOnce(b: Buffer, op: Operation)
    requires CanApply(b, op) && Sound(b)
    ensures CanApply(WithoutDamage(b), op)
    ensures WithoutDamage(Apply(b, op)) == WithoutDamage(Apply(WithoutDamage(b), op))
  {
    hide DrawnCell, Index, Place, Clipped, Upscaled, Downscaled, Apply;
    var c := WithoutDamage(b);
    RestIsApart(b, c, op);
    ApplyDraws(b, op);
    ApplyDraws(c, op);
    match DrawingOf(b, op) {
      case Nothing =>
      case Inside(area, ink) =>
        assert DrawingOf(c, op) == Inside(area, ink);
        DrawnAlike(b, c, area, ink);
    }
  }

  lemma DrawnAlike(b: Buffer, c: Buffer, area: Rectangle, ink: Ink)
    requires b.area == c.area && b.rotation == c.rotation && b.memory == c.memory
    ensures Drawn(b, area, ink).memory == Drawn(c, area, ink).memory
  {
    forall i | 0 <= i < |b.memory| ensures DrawnCell(b, area, ink, i) == DrawnCell(c, area, ink, i) {
      SameShapeSamePlaces(b, c, Point(0, 0));
    }
  }

  /**
   Rotation refinement: any sequence of fills, data, blits, and clips pushed and
   popped on a rotated buffer shows what the same sequence shows on the upright buffer
   with the same picture, as long as the blits that the fast path may take there draw
   what the general path would.
   */
  lemma {:induction false} RotationRefines(b: Buffer, ops: seq<Operation>)
    requires Sound(b) && CanApplyAll(b, ops) && CopyAsTheyBlend(ops, b.scale)
    ensures Sound(ApplyAll(b, ops)) && CanApplyAll(Shown(b), ops)
    ensures Shown(ApplyAll(b, ops)) == WithoutDamage(ApplyAll(Shown(b), ops))
    decreases ops
  {
    hide Picture, Apply, CopiesAsItBlends;
    if ops != [] {
      var c := Apply(b, ops[0]);
      ApplyDraws(b, ops[0]);
      OperationCommutes(b, ops[0]);
      RotationRefines(c, ops[1..]);
      var d := Apply(Shown(b), ops[0]);
      ApplyDraws(Shown(b), ops[0]);
      CanApplyWithDamage(d, ops[1..]);
      DamageIsNotRead(d, ops[1..]);
    }
  }

  /** A new buffer: everything transparent black. */
  function Blank(width: nat, height: nat, rotation: Rotation): (b: Buffer)
    ensures Sound(b)
  {
    var area := if Sideways(rotation) then Rectangle(0, 0, height, width) else Rectangle(0, 0, width, height);
    Buffer(seq(Cells(area), i => 0), area, area, [area], [], false, 1, rotation)
  }

  /** Two buffers that show the same picture, however each is rotated, show the same after the same sequence. */
  lemma AnyTwoRotationsAgree(b: Buffer, c: Buffer, ops: seq<Operation>)
    requires Sound(b) && Sound(c) && Shown(b) == Shown(c)
    requires CanApplyAll(b, ops) && CanApplyAll(c, ops) && CopyAsTheyBlend(ops, b.scale)
    ensures Sound(ApplyAll(b, ops)) && Sound(ApplyAll(c, ops))
    ensures Picture(ApplyAll(b, ops)) == Picture(ApplyAll(c, ops))
  {
    hide Picture, Apply;
    RotationRefines(b, ops);
    RotationRefines(c, ops);
    assert Shown(ApplyAll(b, ops)).memory == Shown(ApplyAll(c, ops)).memory;
  }

  lemma BlanksShowTheSame(width: nat, height: nat, rotation: Rotation)
    ensures var (w, h) := if Sideways(rotation) then (height, width) else (width, height);
      Shown(Blank(width, height, rotation)) == Shown(Blank(w, h, Upright))
  {
    var (w, h) := if Sideways(rotation) then (height, width) else (width, height);
    var b, c := Blank(width, height, rotation), Blank(w, h, Upright);
    forall p | OnPicture(b, p) ensures Get(Shown(b), p) == Get(Shown(c), p) {
      ShownPixel(b, p);
      ShownPixel(c, p);
      IndexInBounds(b, p);
      IndexInBounds(c, p);
    }
    PixelsDetermineMemory(Shown(b), Shown(c));
  }

  /** rotate_upright: a new upright buffer with the picture of the old one. */
  function RotatedUpright(b: Buffer): (r: Buffer)
    requires Sound(b)
    ensures Sound(r)
  {
    var w, h := b.area.width, b.area.height;
    Buffer(Picture(b), b.area, Rectangle(0, 0, Truncated(w, b.scale), Truncated(h, b.scale)), [b.area], [], b.isOpaque, b.scale, Upright)
  }

  /** Drawing, then materialising, is materialising what the upright buffer drew. */
  lemma RotateUprightAfterDrawing(b: Buffer, ops: seq<Operation>)
    requires Sound(b) && CanApplyAll(b, ops) && CopyAsTheyBlend(ops, b.scale)
    ensures Sound(ApplyAll(b, ops)) && CanApplyAll(Shown(b), ops)
    ensures RotatedUpright(ApplyAll(b, ops)).memory == ApplyAll(Shown(b), ops).memory
  {
    RotationRefines(b, ops);
  }

  // ----- damage

  /** Everything that draws on a buffer or replaces it. */
  datatype Step =
    | Draw(op: Operation)
    | Gradient(gradientArea: Option<Rectangle>, shade: (int, int) -> Pixel)
    | Materialise

  predicate CanStep(b: Buffer, step: Step) {
    step.Draw? ==> CanApply(b, step.op)
  }

  function Stepped(b: Buffer, step: Step): Buffer
    requires Sound(b) && CanStep(b, step)
  {
    match step
    case Draw(op) => Apply(b, op)
    case Gradient(area, shade) => Shaded(b, area, shade)
    case Materialise => RotatedUpright(b)
  }

  ghost predicate IsRun(b: Buffer, steps: seq<Step>)
    decreases steps
  {
    steps == [] || (Sound(b) && CanStep(b, steps[0]) && IsRun(Stepped(b, steps[0]), steps[1..]))
  }

  ghost function Run(b: Buffer, steps: seq<Step>): Buffer
    requires IsRun(b, steps)
    decreases steps
  {
    if steps == [] then b else Run(Stepped(b, steps[0]), steps[1..])
  }

  /** What a step draws on the buffer. */
  function DrawnBy(b: Buffer, step: Step): Drawing
    requires CanStep(b, step)
  {
    match step
    case Draw(op) => DrawingOf(b, op)
    case Gradient(area, shade) => Inside(Cropped(b, if area.None? then b.logicalArea else area.value), Shading(shade))
    case Materialise => Nothing
  }

  lemma StepDraws(b: Buffer, step: Step)
    requires Sound(b) && CanStep(b, step) && !step.Materialise?
    ensures var c := Stepped(b, step);
      && Sound(c) && c.area == b.area && c.rotation == b.rotation
      && match DrawnBy(b, step)
         case Nothing => c.memory == b.memory && c.damage == b.damage
         case Inside(area, ink) => c.memory == Drawn(b, area, ink).memory && c.damage == b.damage + [Damaged(b, area)]
  {
    hide DrawnCell, DrawingOf, Apply;
    if step.Draw? {
      ApplyDraws(b, step.op);
    }
  }

  /** A step keeps earlier damage and changes only cells its own damage covers. */
  lemma ChangesAreDamaged(b: Buffer, step: Step, i: nat)
    requires Sound(b) && CanStep(b, step) && !step.Materialise? && i < |b.memory|
    ensures |Stepped(b, step).memory| == |b.memory| && b.damage <= Stepped(b, step).damage
    ensures Stepped(b, step).memory[i] != b.memory[i] ==> Covered(Stepped(b, step).damage, Scanned(b, i))
  {
    hide Stepped, DrawnBy, Damaged;
    StepDraws(b, step);
    match DrawnBy(b, step) {
      case Nothing =>
      case Inside(area, ink) =>
        var q := Scanned(b, i);
        DamageIsExact(b, area, q);
        var damage := Stepped(b, step).damage;
        if Contains(area, Place(b, i).x, Place(b, i).y) {
          assert damage[|b.damage|] == Damaged(b, area);
          assert Contains(damage[|b.damage|], q.x, q.y);
        }
    }
  }

  /** Over a whole run on one buffer, gradients and blits included, every cell that changed is covered where it is scanned out. */
  lemma {:induction false} RunIsDamaged(b: Buffer, steps: seq<Step>, i: nat)
    requires Sound(b) && IsRun(b, steps) && (forall k :: 0 <= k < |steps| ==> !steps[k].Materialise?) && i < |b.memory|
    ensures var c := Run(b, steps);
      && |c.memory| == |b.memory| && b.damage <= c.damage
      && (c.memory[i] != b.memory[i] ==> Covered(c.damage, Scanned(b, i)))
    decreases steps
  {
    hide Stepped, CanStep, Scanned, DrawnBy;
    if steps != [] {
      var d := Stepped(b, steps[0]);
      StepDraws(b, steps[0]);
      ChangesAreDamaged(b, steps[0], i);
      RunIsDamaged(d, steps[1..], i);
      SameShapeSameScan(b, d, i);
      var c := Run(b, steps);
      if Covered(d.damage, Scanned(b, i)) {
        CoveredStays(d.damage, c.damage, Scanned(b, i));
      }
    }
  }

  lemma SameShapeSameScan(b: Buffer, c: Buffer, i: nat)
    requires b.area == c.area && b.rotation == c.rotation
    ensures Scanned(b, i) == Scanned(c, i)
  {
  }

  lemma CoveredStays(damage: seq<Rectangle>, more: seq<Rectangle>, q: Point)
    requires damage <= more && Covered(damage, q)
    ensures Covered(more, q)
  {
    var i :| 0 <= i < |damage| && Contains(damage[i], q.x, q.y);
    assert Contains(more[i], q.x, q.y);
  }

  /** Where a step draws is exactly what it adds to the damage. */
  lemma DamageIsDrawn(b: Buffer, step: Step, q: Point)
    requires Sound(b) && CanStep(b, step) && !step.Materialise?
    ensures Covered(Stepped(b, step).damage, q) <==>
            || Covered(b.damage, q)
            || (DrawnBy(b, step).Inside? && Contains(DrawnBy(b, step).area, Logical(b, q).x, Logical(b, q).y))
  {
    hide Stepped, DrawnBy, Damaged, Drawn;
    StepDraws(b, step);
    var before, after := b.damage, Stepped(b, step).damage;
    if Covered(before, q) {
      CoveredStays(before, after, q);
    }
    match DrawnBy(b, step) {
      case Nothing =>
      case Inside(area, ink) =>
        DamageIsExact(b, area, q);
        assert after[|before|] == Damaged(b, area);
        if Contains(area, Logical(b, q).x, Logical(b, q).y) {
          assert Contains(after[|before|], q.x, q.y);
        }
        if Covered(after, q) && !Contains(Damaged(b, area), q.x, q.y) {
          var i :| 0 <= i < |after| && Contains(after[i], q.x, q.y);
          assert i < |before| && Contains(before[i], q.x, q.y);
        }
    }
  }

  // ----- the opacity mark

  predicate AllOpaque(memory: seq<Pixel>) {
    forall i :: 0 <= i < |memory| ==> AlphaOf(memory[i]) == OPAQUE
  }

  /** A buffer that is marked opaque is. */
  predicate MarkIsTrue(b: Buffer) {
    b.isOpaque ==> AllOpaque(b.memory)
  }

  lemma MadeOpaqueIsOpaque(p: Pixel)
    ensures AlphaOf(MadeOpaque(p)) == OPAQUE
  {
    PackedChannels(OPAQUE, RedOf(p), GreenOf(p), BlueOf(p));
  }

  /** Fills, gradients and blended data keep an opaque pixel opaque. */
  lemma ColorStaysOpaque(ink: Ink, p: Point, backdrop: Pixel)
    requires AlphaOf(backdrop) == OPAQUE && !ink.Copy?
    ensures AlphaOf(Color(ink, p, backdrop)) == OPAQUE
  {
    hide Blended, Translucent, MadeOpaque;
    match ink {
      case Solid(pixel) => BlendedStaysOpaque(pixel, backdrop);
      case Image(data, fill, opacity) => BlendedStaysOpaque(Translucent(Datum(data, fill, p), opacity), backdrop);
      case Sampled(sample, opacity) => BlendedStaysOpaque(Translucent(sample(p.x, p.y), opacity), backdrop);
      case Shading(shade) => MadeOpaqueIsOpaque(shade(p.x, p.y));
    }
  }

  lemma DrawingStaysOpaque(b: Buffer, area: Rectangle, ink: Ink)
    requires AllOpaque(b.memory) && !ink.Copy?
    ensures AllOpaque(Drawn(b, area, ink).memory)
  {
    hide Color, Place;
    forall i | 0 <= i < |b.memory| ensures AlphaOf(DrawnCell(b, area, ink, i)) == OPAQUE {
      ColorStaysOpaque(ink, Place(b, i), b.memory[i]);
    }
  }

  /** The operation marks the buffer opaque. */
  predicate Marks(b: Buffer, op: Operation) {
    && op.Fill? && AlphaOf(op.pixel) == OPAQUE
    && (if op.area.None? then b.logicalArea else op.area.value) == b.area
  }

  /**
   A fill that marks the buffer leaves it opaque exactly when everything the clips
   kept it from drawing on was opaque before.
   */
  lemma MarkIsTrueIff(b: Buffer, op: Operation)
    requires Sound(b) && CanApply(b, op) && Marks(b, op)
    ensures Apply(b, op).isOpaque
    ensures AllOpaque(Apply(b, op).memory) <==>
            forall i :: 0 <= i < |b.memory| && !InAll(b.clips, Place(b, i).x, Place(b, i).y) ==> AlphaOf(b.memory[i]) == OPAQUE
  {
    var crop := Cropped(b, b.area);
    var d := Apply(b, op).memory;
    ApplyDraws(b, op);
    forall i | 0 <= i < |b.memory|
      ensures d[i] == if InAll(b.clips, Place(b, i).x, Place(b, i).y) then op.pixel else b.memory[i]
    {
      MarkingFillCovers(b, i);
      assert d[i] == DrawnCell(b, crop, Solid(op.pixel), i);
    }
  }

  lemma MarkingFillCovers(b: Buffer, i: nat)
    requires Sound(b) && i < |b.memory|
    ensures var p := Place(b, i); Contains(Cropped(b, b.area), p.x, p.y) <==> InAll(b.clips, p.x, p.y)
  {
    hide Place;
    var p := Place(b, i);
    PlaceOnPicture(b, i);
    ClippedIsIntersection(Upscaled(b.area, b.scale), b.clips, p.x, p.y);
    UpscalingGrows(b.area.width, b.scale);
    UpscalingGrows(b.area.height, b.scale);
  }

  lemma UpscalingGrows(n: nat, scale: nat)
    requires scale >= 1
    ensures Times(n, scale) >= n && Times(0, scale) == 0
  {
  }

  /** With only the first clip in force, the mark is always true. */
  lemma MarkStaysTrue(b: Buffer, op: Operation)
    requires Sound(b) && CanApply(b, op) && MarkIsTrue(b)
    requires Marks(b, op) ==> |b.clips| == 1
    requires op.Blit? ==> MarkIsTrue(op.source)
    ensures Sound(Apply(b, op)) && MarkIsTrue(Apply(b, op))
  {
    ApplyDraws(b, op);
    if Marks(b, op) {
      forall i | 0 <= i < |b.memory| ensures InAll(b.clips, Place(b, i).x, Place(b, i).y) {
        PlaceOnPicture(b, i);
      }
      MarkIsTrueIff(b, op);
    } else if op.Blit? {
      BlitKeepsMarkTrue(b, op.source, op.xOffset, op.yOffset, op.blitClip, op.blitOpacity, op.blitSample);
    } else if b.isOpaque {
      match DrawingOf(b, op) {
        case Nothing =>
        case Inside(area, ink) => DrawingStaysOpaque(b, area, ink);
      }
    }
  }

  /** One pushed clip is enough to make the mark a lie: the pixel outside it stays transparent. */
  lemma ClippedFillMarksFalsely()
    ensures var b := Blank(2, 1, Upright);
      var ops := [Push(Rectangle(0, 0, 1, 1)), Fill(None, 0xFFFF_FFFF)];
      && CanApplyAll(b, ops) && ApplyAll(b, ops).isOpaque && !MarkIsTrue(ApplyAll(b, ops))
  {
    var b := Blank(2, 1, Upright);
    var push, fill := Push(Rectangle(0, 0, 1, 1)), Fill(None, 0xFFFF_FFFF);
    var c := Apply(b, push);
    assert [push, fill][1..] == [fill] && [fill][1..] == [];
    assert ApplyAll(b, [push, fill]) == ApplyAll(c, [fill]) == ApplyAll(Apply(c, fill), []);
    assert Sound(c) && Marks(c, fill);
    MarkIsTrueIff(c, fill);
    assert Place(c, 1) == Point(1, 0);
    assert !Contains(c.clips[1], 1, 0);
  }

  // ----- the fast path

  /** What the fast path copies: the source's logical area, clipped; the extra clip is taken as it is. */
  function CopyArea(canvas: Buffer, source: Buffer, xOffset: int, yOffset: int, clip: Option<Rectangle>): Rectangle {
    var crop := Cropped(canvas, Rectangle(xOffset, yOffset, source.logicalArea.width, source.logicalArea.height));
    if clip.None? then crop else Intersect(crop, clip.value)
  }

  /** The source's memory laid out on the canvas. */
  function Placed(source: Buffer, xOffset: int, yOffset: int, scale: nat): Rectangle {
    Rectangle(Times(xOffset, scale), Times(yOffset, scale), source.area.width, source.area.height)
  }

  function Copied(canvas: Buffer, source: Buffer, xOffset: int, yOffset: int, clip: Option<Rectangle>): Buffer {
    var crop := CopyArea(canvas, source, xOffset, yOffset, clip);
    if IsEmpty(crop) then canvas
    else
      var d := Drawn(canvas, crop, Copy(source.memory, Placed(source, xOffset, yOffset, canvas.scale)));
      d.(damage := d.damage + [crop])
  }

  /** The logical area follows from the device area and the scale. */
  predicate Scaled(b: Buffer) {
    b.scale >= 1 && b.logicalArea == Rectangle(0, 0, Truncated(b.area.width, b.scale), Truncated(b.area.height, b.scale))
  }

  predicate TakesFastPath(canvas: Buffer, source: Buffer, opacity: real) {
    opacity == 1.0 && source.isOpaque && canvas.scale == source.scale && canvas.rotation.Upright?
  }

  /** fill_with_buffer_at_opacity_with_clip */
  function Blitted(canvas: Buffer, source: Buffer, xOffset: int, yOffset: int, clip: Option<Rectangle>, opacity: real,
                   sample: (int, int) -> Pixel): Buffer
    requires source.scale >= 1 && 0.0 <= opacity <= 1.0
  {
    if TakesFastPath(canvas, source, opacity) then Copied(canvas, source, xOffset, yOffset, clip)
    else BlittedSlowly(canvas, source, xOffset, yOffset, clip, opacity, sample)
  }

  /** The general path, which blends. */
  function BlittedSlowly(canvas: Buffer, source: Buffer, xOffset: int, yOffset: int, clip: Option<Rectangle>, opacity: real,
                         sample: (int, int) -> Pixel): Buffer
    requires source.scale >= 1 && 0.0 <= opacity <= 1.0
  {
    StampedData(canvas, Placed(source, xOffset, yOffset, source.scale), clip, source.memory, OpacityByte(opacity), source.scale,
                sample)
  }

  lemma SameAreaOnBothPaths(canvas: Buffer, source: Buffer, xOffset: int, yOffset: int, clip: Option<Rectangle>)
    requires Scaled(source) && canvas.scale == source.scale
    requires clip.Some? ==> IsMultiple(clip.value, source.scale)
    ensures CopyArea(canvas, source, xOffset, yOffset, clip) ==
            StampArea(canvas, Placed(source, xOffset, yOffset, source.scale), clip, source.scale)
  {
    hide Times, Truncated, Clipped;
    TruncatedProduct(xOffset, source.scale);
    TruncatedProduct(yOffset, source.scale);
  }

  /** Opaque data, drawn at full opacity, is copied. */
  lemma OpaqueDataIsCopied(data: seq<Pixel>, fill: Rectangle, p: Point, backdrop: Pixel)
    requires AllOpaque(data) && 0 <= DataIndex(fill, p) < |data|
    ensures Color(Image(data, fill, 255), p, backdrop) == Color(Copy(data, fill), p, backdrop)
  {
  }

  /** The copied area lies on the source's memory. */
  lemma CopyReadsInBounds(canvas: Buffer, source: Buffer, xOffset: int, yOffset: int, clip: Option<Rectangle>, p: Point)
    requires Sound(canvas) && Sound(source) && Scaled(source) && canvas.scale == source.scale
    requires Contains(CopyArea(canvas, source, xOffset, yOffset, clip), p.x, p.y)
    ensures 0 <= DataIndex(Placed(source, xOffset, yOffset, canvas.scale), p) < |source.memory|
    ensures OnPicture(canvas, p)
  {
    hide Times, Truncated, Clipped, DataIndex;
    var logical := Rectangle(xOffset, yOffset, source.logicalArea.width, source.logicalArea.height);
    if clip.Some? {
      IntersectIsIntersection(Cropped(canvas, logical), clip.value, p.x, p.y);
    }
    CroppedOnPicture(canvas, Upscaled(logical, canvas.scale), p);
    TruncationShrinks(source.area.width, source.scale);
    TruncationShrinks(source.area.height, source.scale);
    var fill := Placed(source, xOffset, yOffset, canvas.scale);
    DataIndexInBounds(fill, p);
  }

  lemma TruncationShrinks(n: nat, scale: nat)
    requires scale >= 1
    ensures Times(Truncated(n, scale), scale) <= n
  {
  }

  lemma DataIndexInBounds(fill: Rectangle, p: Point)
    requires Contains(fill, p.x, p.y)
    ensures 0 <= DataIndex(fill, p) < Cells(fill)
  {
    var q := Point(p.x - fill.x, p.y - fill.y);
    RowMajorInBounds(fill.width, fill.height, q);
    assert q.y * fill.width == fill.width * (p.y - fill.y);
  }

  /** A canvas and a source that the fast path is for, the source being as opaque as its mark says. */
  predicate AreForCopying(canvas: Buffer, source: Buffer) {
    Sound(canvas) && Sound(source) && Scaled(source) && TakesFastPath(canvas, source, 1.0) && AllOpaque(source.memory)
  }

  predicate SameArea(a: Rectangle, b: Rectangle) {
    a == b || (IsEmpty(a) && IsEmpty(b))
  }

  lemma SameAreaSameBlit(canvas: Buffer, source: Buffer, xOffset: int, yOffset: int, clip: Option<Rectangle>,
                         sample: (int, int) -> Pixel)
    requires AreForCopying(canvas, source)
    requires CopyArea(canvas, source, xOffset, yOffset, clip) ==
             StampArea(canvas, Placed(source, xOffset, yOffset, source.scale), clip, source.scale)
    ensures Copied(canvas, source, xOffset, yOffset, clip) == BlittedSlowly(canvas, source, xOffset, yOffset, clip, 1.0, sample)
  {
    hide Place, Color, DataIndex, Times, CopyArea, StampArea;
    var fill := Placed(source, xOffset, yOffset, source.scale);
    var crop := CopyArea(canvas, source, xOffset, yOffset, clip);
    var copy, image := Copy(source.memory, fill), Image(source.memory, fill, 255);
    forall i | 0 <= i < |canvas.memory| ensures DrawnCell(canvas, crop, copy, i) == DrawnCell(canvas, crop, image, i) {
      var p := Place(canvas, i);
      if Contains(crop, p.x, p.y) {
        CopyReadsInBounds(canvas, source, xOffset, yOffset, clip, p);
        OpaqueDataIsCopied(source.memory, fill, p, canvas.memory[i]);
      }
    }
    assert Drawn(canvas, crop, copy).memory == Drawn(canvas, crop, image).memory;
  }

  lemma LastAdded(damage: seq<Rectangle>, a: Rectangle, b: Rectangle)
    requires damage + (if IsEmpty(a) then [] else [a]) == damage + if IsEmpty(b) then [] else [b]
    ensures SameArea(a, b)
  {
    var s, t := damage + (if IsEmpty(a) then [] else [a]), damage + if IsEmpty(b) then [] else [b];
    assert |s| == |t| && s[|damage|..] == t[|damage|..];
  }

  lemma DamageOfBothPaths(canvas: Buffer, source: Buffer, xOffset: int, yOffset: int, clip: Option<Rectangle>,
                          sample: (int, int) -> Pixel)
    requires AreForCopying(canvas, source)
    ensures var a := CopyArea(canvas, source, xOffset, yOffset, clip);
      Copied(canvas, source, xOffset, yOffset, clip).damage == canvas.damage + if IsEmpty(a) then [] else [a]
    ensures var b := StampArea(canvas, Placed(source, xOffset, yOffset, source.scale), clip, source.scale);
      BlittedSlowly(canvas, source, xOffset, yOffset, clip, 1.0, sample).damage == canvas.damage + if IsEmpty(b) then [] else [b]
  {
    hide CopyArea, StampArea, Placed, DrawnCell, AllOpaque, Scaled, StampInk;
    assert canvas.damage + [] == canvas.damage;
  }

  /**
   On a given canvas the fast path writes the same memory and reports the same
   damage as the general path exactly when both draw in the same place, or nowhere.
   */
  lemma PathsAgreeIffAreasDo(canvas: Buffer, source: Buffer, xOffset: int, yOffset: int, clip: Option<Rectangle>,
                             sample: (int, int) -> Pixel)
    requires AreForCopying(canvas, source)
    ensures Copied(canvas, source, xOffset, yOffset, clip) == BlittedSlowly(canvas, source, xOffset, yOffset, clip, 1.0, sample)
            <==> SameArea(CopyArea(canvas, source, xOffset, yOffset, clip),
                          StampArea(canvas, Placed(source, xOffset, yOffset, source.scale), clip, source.scale))
  {
    hide CopyArea, StampArea, Drawn, Placed, AllOpaque, Scaled;
    var copied, stamped := Copied(canvas, source, xOffset, yOffset, clip),
                           BlittedSlowly(canvas, source, xOffset, yOffset, clip, 1.0, sample);
    var a := CopyArea(canvas, source, xOffset, yOffset, clip);
    var b := StampArea(canvas, Placed(source, xOffset, yOffset, source.scale), clip, source.scale);
    if a == b {
      SameAreaSameBlit(canvas, source, xOffset, yOffset, clip, sample);
    } else if copied == stamped {
      DamageOfBothPaths(canvas, source, xOffset, yOffset, clip, sample);
      LastAdded(canvas.damage, a, b);
    }
  }

  /**
   The fast path equals the general path for every canvas, offset and clip stack,
   when the source is opaque (however it is rotated) and any extra clip is a
   multiple of the scale.
   */
  lemma FastPathEqualsGeneralPath(canvas: Buffer, source: Buffer, xOffset: int, yOffset: int, clip: Option<Rectangle>,
                                  sample: (int, int) -> Pixel)
    requires AreForCopying(canvas, source)
    requires clip.Some? ==> IsMultiple(clip.value, source.scale)
    ensures Copied(canvas, source, xOffset, yOffset, clip) == BlittedSlowly(canvas, source, xOffset, yOffset, clip, 1.0, sample)
  {
    SameAreaOnBothPaths(canvas, source, xOffset, yOffset, clip);
    SameAreaSameBlit(canvas, source, xOffset, yOffset, clip, sample);
  }

  // ----- the clips on which the two paths agree

  /** No pixel of any canvas is in the rectangle: canvases begin at the origin. */
  predicate IsHidden(r: Rectangle) {
    IsEmpty(r) || r.x + r.width <= 0 || r.y + r.height <= 0
  }

  /** Two rectangles with the same visible part. */
  predicate LookAlike(a: Rectangle, b: Rectangle) {
    if IsHidden(a) then IsHidden(b)
    else
      && !IsHidden(b)
      && Max(a.x, 0) == Max(b.x, 0) && a.x + a.width == b.x + b.width
      && Max(a.y, 0) == Max(b.y, 0) && a.y + a.height == b.y + b.height
  }

  /** The fast path takes a clip as it is; the general path takes it through the source's scale and back. */
  function Snapped(clip: Rectangle, scale: nat): Rectangle
    requires scale >= 1
  {
    Upscaled(Downscaled(clip, scale), scale)
  }

  lemma AlikeIffSamePoints(a: Rectangle, b: Rectangle)
    ensures LookAlike(a, b) <==> forall x, y :: x >= 0 && y >= 0 ==> (Contains(a, x, y) <==> Contains(b, x, y))
  {
    if forall x, y :: x >= 0 && y >= 0 ==> (Contains(a, x, y) <==> Contains(b, x, y)) {
      if !IsHidden(a) {
        assert Contains(a, Max(a.x, 0), Max(a.y, 0)) && Contains(a, a.x + a.width - 1, a.y + a.height - 1);
        assert Contains(b, Max(a.x, 0), Max(a.y, 0)) && Contains(b, a.x + a.width - 1, a.y + a.height - 1);
      }
      if !IsHidden(b) {
        assert Contains(b, Max(b.x, 0), Max(b.y, 0)) && Contains(b, b.x + b.width - 1, b.y + b.height - 1);
        assert Contains(a, Max(b.x, 0), Max(b.y, 0)) && Contains(a, b.x + b.width - 1, b.y + b.height - 1);
      }
    }
  }

  /** Clips that look alike cut the same off every crop. */
  lemma AlikeCutAlike(crop: Rectangle, a: Rectangle, b: Rectangle)
    requires LookAlike(a, b) && (IsEmpty(crop) || (crop.x >= 0 && crop.y >= 0))
    ensures SameArea(Intersect(crop, a), Intersect(crop, b))
  {
  }

  lemma CropStartsOnCanvas(canvas: Buffer, area: Rectangle)
    requires Sound(canvas)
    ensures var crop := Cropped(canvas, area); IsEmpty(crop) || (crop.x >= 0 && crop.y >= 0)
  {
    hide Cropped;
    var crop := Cropped(canvas, area);
    if !IsEmpty(crop) {
      CroppedOnPicture(canvas, Upscaled(area, canvas.scale), Point(crop.x, crop.y)) by { CroppedIsClipped(canvas, area); }
    }
  }

  lemma CroppedIsClipped(canvas: Buffer, area: Rectangle)
    ensures Cropped(canvas, area) == Clipped(Upscaled(area, canvas.scale), canvas.clips)
  {
  }

  predicate PathsAgreeOn(clip: Rectangle, canvas: Buffer, source: Buffer, xOffset: int, yOffset: int, sample: (int, int) -> Pixel)
    requires source.scale >= 1
  {
    Copied(canvas, source, xOffset, yOffset, Some(clip)) == BlittedSlowly(canvas, source, xOffset, yOffset, Some(clip), 1.0, sample)
  }

  lemma BothAreas(canvas: Buffer, source: Buffer, xOffset: int, yOffset: int, clip: Rectangle)
    requires AreForCopying(canvas, source)
    ensures var crop := Cropped(canvas, Rectangle(xOffset, yOffset, source.logicalArea.width, source.logicalArea.height));
      && CopyArea(canvas, source, xOffset, yOffset, Some(clip)) == Intersect(crop, clip)
      && StampArea(canvas, Placed(source, xOffset, yOffset, source.scale), Some(clip), source.scale) ==
         Intersect(crop, Snapped(clip, source.scale))
  {
    hide Times, Truncated, Clipped, Intersect;
    TruncatedProduct(xOffset, source.scale);
    TruncatedProduct(yOffset, source.scale);
  }

  lemma AlikeClipsAgree(clip: Rectangle, canvas: Buffer, source: Buffer, xOffset: int, yOffset: int, sample: (int, int) -> Pixel)
    requires AreForCopying(canvas, source) && LookAlike(clip, Snapped(clip, source.scale))
    ensures PathsAgreeOn(clip, canvas, source, xOffset, yOffset, sample)
  {
    hide CopyArea, StampArea, Cropped, Snapped, LookAlike, SameArea, Intersect, AllOpaque, Placed, Scaled;
    var area := Rectangle(xOffset, yOffset, source.logicalArea.width, source.logicalArea.height);
    CropStartsOnCanvas(canvas, area);
    AlikeCutAlike(Cropped(canvas, area), clip, Snapped(clip, source.scale));
    BothAreas(canvas, source, xOffset, yOffset, clip);
    PathsAgreeIffAreasDo(canvas, source, xOffset, yOffset, Some(clip), sample);
  }

  /** An upright buffer filled with one pixel. */
  function Sheet(width: nat, height: nat, scale: nat, pixel: Pixel): (b: Buffer)
    requires scale >= 1
    ensures Sound(b) && Scaled(b) && (AlphaOf(pixel) == OPAQUE ==> AreForCopying(b, b))
  {
    TruncatedProduct(width, scale);
    TruncatedProduct(height, scale);
    var area := Rectangle(0, 0, Times(width, scale), Times(height, scale));
    Buffer(seq(Cells(area), i => pixel), area, Rectangle(0, 0, width, height), [area], [], AlphaOf(pixel) == OPAQUE, scale, Upright)
  }

  const WHITE: Pixel := 0xFFFF_FFFF

  lemma WholeSheetIsCropped(width: nat, height: nat, scale: nat, pixel: Pixel)
    requires scale >= 1
    ensures var b := Sheet(width, height, scale, pixel); Cropped(b, b.logicalArea) == b.area
  {
    hide Times;
    var b := Sheet(width, height, scale, pixel);
    ZeroTimes(scale);
    OneClip(b.area);
    assert Upscaled(b.logicalArea, scale) == b.area;
  }

  lemma OneClip(area: Rectangle)
    ensures Clipped(area, [area]) == area
  {
    assert Intersect(area, area) == area;
    assert [area][1..] == [];
    assert Clipped(area, [area]) == Clipped(area, [area][1..]);
  }

  lemma ZeroTimes(n: int)
    ensures Times(0, n) == 0
  {
  }

  lemma TimesIsNotLess(n: nat, scale: nat)
    requires scale >= 1
    ensures Times(n, scale) >= n
  {
    if n >= 1 && scale >= 2 {
      TimesIsLarge(n, scale);
    }
  }

  /** A pixel that only one of the two paths may touch, on a canvas large enough to have it. */
  lemma DifferenceShows(clip: Rectangle, scale: nat, x: nat, y: nat, sample: (int, int) -> Pixel)
    requires scale >= 1 && (Contains(clip, x, y) <==> !Contains(Snapped(clip, scale), x, y))
    ensures var sheet := Sheet(x + 1, y + 1, scale, WHITE);
      AreForCopying(sheet, sheet) && !PathsAgreeOn(clip, sheet, sheet, 0, 0, sample)
  {
    hide Sheet, CopyArea, StampArea, Cropped, Snapped, Intersect, Placed, Times, AllOpaque, Scaled;
    var sheet := Sheet(x + 1, y + 1, scale, WHITE);
    SheetHas(x, y, scale);
    WholeSheetIsCropped(x + 1, y + 1, scale, WHITE);
    BothAreas(sheet, sheet, 0, 0, clip);
    IntersectIsIntersection(sheet.area, clip, x, y);
    IntersectIsIntersection(sheet.area, Snapped(clip, scale), x, y);
    PathsAgreeIffAreasDo(sheet, sheet, 0, 0, Some(clip), sample);
  }

  lemma SheetHas(x: nat, y: nat, scale: nat)
    requires scale >= 1
    ensures var sheet := Sheet(x + 1, y + 1, scale, WHITE);
      && Contains(sheet.area, x, y) && sheet.logicalArea == Rectangle(0, 0, x + 1, y + 1) && sheet.scale == scale
      && AreForCopying(sheet, sheet)
  {
    TimesIsNotLess(x + 1, scale);
    TimesIsNotLess(y + 1, scale);
  }

  /** An extra clip is cut alike on every canvas exactly when scaling it down and up again leaves its visible part alone. */
  lemma PathsAlwaysAgreeIff(clip: Rectangle, scale: nat, sample: (int, int) -> Pixel)
    requires scale >= 1
    ensures (forall canvas, source, xOffset, yOffset ::
               AreForCopying(canvas, source) && source.scale == scale ==>
               PathsAgreeOn(clip, canvas, source, xOffset, yOffset, sample))
            <==> LookAlike(clip, Snapped(clip, scale))
  {
    hide AreForCopying, PathsAgreeOn, LookAlike, Snapped, Sheet;
    if LookAlike(clip, Snapped(clip, scale)) {
      forall canvas: Buffer, source: Buffer, xOffset: int, yOffset: int | AreForCopying(canvas, source) && source.scale == scale
        ensures source.scale >= 1 && PathsAgreeOn(clip, canvas, source, xOffset, yOffset, sample)
      {
        AlikeClipsAgree(clip, canvas, source, xOffset, yOffset, sample);
      }
    } else {
      AlikeIffSamePoints(clip, Snapped(clip, scale));
      var x, y :| x >= 0 && y >= 0 && (Contains(clip, x, y) <==> !Contains(Snapped(clip, scale), x, y));
      SheetHas(x, y, scale);
      DifferenceShows(clip, scale, x, y, sample);
    }
  }

  /** A clip that lies where canvases are keeps its visible part exactly when it is a multiple of the scale; */
  lemma VisibleClipsMustBeMultiples(clip: Rectangle, scale: nat)
    requires scale >= 1 && !IsEmpty(clip) && clip.x >= 0 && clip.y >= 0
    ensures LookAlike(clip, Snapped(clip, scale)) <==> IsMultiple(clip, scale)
  {
    hide Times, Truncated;
  }

  /** one that begins off the canvas need not be one. */
  lemma HiddenEdgesDoNotMatter()
    ensures var clip := Rectangle(-1, 0, 5, 2); !IsMultiple(clip, 2) && LookAlike(clip, Snapped(clip, 2))
  {
  }

  /** A clip of one device pixel at scale 2: the fast path copies the pixel, the general path draws nothing. */
  lemma SmallClipIsCutDifferently(sample: (int, int) -> Pixel)
    ensures var canvas, source, clip := Sheet(1, 1, 2, 0), Sheet(1, 1, 2, WHITE), Some(Rectangle(0, 0, 1, 1));
      && AreForCopying(canvas, source)
      && Copied(canvas, source, 0, 0, clip).memory == [WHITE, 0, 0, 0]
      && Copied(canvas, source, 0, 0, clip).damage == [Rectangle(0, 0, 1, 1)]
      && BlittedSlowly(canvas, source, 0, 0, clip, 1.0, sample) == canvas
  {
    hide Cropped, Place, Scanned, Color, AllOpaque, Stamp;
    var canvas, source, clip := Sheet(1, 1, 2, 0), Sheet(1, 1, 2, WHITE), Rectangle(0, 0, 1, 1);
    WholeSheetIsCropped(1, 1, 2, 0);
    BothAreas(canvas, source, 0, 0, clip);
    NothingIsStamped(canvas, Placed(source, 0, 0, 2), clip, source.memory, sample);
    var crop, ink := CopyArea(canvas, source, 0, 0, Some(clip)), Copy(source.memory, Placed(source, 0, 0, 2));
    FourPlaces(canvas);
    FirstDatum(source.memory, Placed(source, 0, 0, 2));
    assert |canvas.memory| == 4;
    assert Drawn(canvas, crop, ink).memory == [WHITE, 0, 0, 0];
  }

  lemma NothingIsStamped(canvas: Buffer, fill: Rectangle, clip: Rectangle, data: seq<Pixel>, sample: (int, int) -> Pixel)
    requires clip == Rectangle(0, 0, 1, 1) && canvas.scale == 2
    ensures StampedData(canvas, fill, Some(clip), data, 255, 2, sample) == canvas
    ensures Snapped(clip, 2) == Rectangle(0, 0, 0, 0)
  {
    hide Cropped, StampInk, Drawn, Damaged, Upscaled, Downscaled;
    SmallClipIsLost();
  }

  lemma SmallClipIsLost()
    ensures Snapped(Rectangle(0, 0, 1, 1), 2) == Rectangle(0, 0, 0, 0)
  {
  }

  lemma FirstDatum(data: seq<Pixel>, fill: Rectangle)
    requires fill.x == 0 && fill.y == 0 && data != []
    ensures Color(Copy(data, fill), Point(0, 0), 0) == data[0]
  {
    ZeroTimes(fill.width);
    assert DataIndex(fill, Point(0, 0)) == Times(0, fill.width);
  }

  lemma FourPlaces(canvas: Buffer)
    requires canvas.area == Rectangle(0, 0, 2, 2) && canvas.rotation.Upright?
    ensures Place(canvas, 0) == Point(0, 0) && Place(canvas, 1) == Point(1, 0)
    ensures Place(canvas, 2) == Point(0, 1) && Place(canvas, 3) == Point(1, 1)
  {
  }

  /** A copy from a source whose mark is true keeps the mark of the canvas true. */
  lemma BlitKeepsMarkTrue(canvas: Buffer, source: Buffer, xOffset: int, yOffset: int, clip: Option<Rectangle>, opacity: real,
                          sample: (int, int) -> Pixel)
    requires Sound(canvas) && Sound(source) && Scaled(source) && 0.0 <= opacity <= 1.0
    requires MarkIsTrue(canvas) && MarkIsTrue(source)
    ensures MarkIsTrue(Blitted(canvas, source, xOffset, yOffset, clip, opacity, sample))
  {
    if canvas.isOpaque {
      if TakesFastPath(canvas, source, opacity) {
        CopyKeepsOpaque(canvas, source, xOffset, yOffset, clip);
      } else {
        var fill := Placed(source, xOffset, yOffset, source.scale);
        var crop := StampArea(canvas, fill, clip, source.scale);
        DrawingStaysOpaque(canvas, crop, StampInk(canvas, fill, source.memory, OpacityByte(opacity), source.scale, sample));
      }
    }
  }

  lemma CopyKeepsOpaque(canvas: Buffer, source: Buffer, xOffset: int, yOffset: int, clip: Option<Rectangle>)
    requires Sound(canvas) && Sound(source) && Scaled(source) && canvas.scale == source.scale
    requires AllOpaque(canvas.memory) && AllOpaque(source.memory)
    ensures AllOpaque(Copied(canvas, source, xOffset, yOffset, clip).memory)
  {
    hide Place, DataIndex, CopyArea, AlphaOf;
    var fill := Placed(source, xOffset, yOffset, canvas.scale);
    var crop := CopyArea(canvas, source, xOffset, yOffset, clip);
    forall i | 0 <= i < |canvas.memory| ensures AlphaOf(DrawnCell(canvas, crop, Copy(source.memory, fill), i)) == OPAQUE {
      var p := Place(canvas, i);
      if Contains(crop, p.x, p.y) {
        CopyReadsInBounds(canvas, source, xOffset, yOffset, clip, p);
      }
    }
  }

  // ----- whole runs

  /** Blits come from buffers whose mark is true; fills that set the mark see no clip but the first. */
  predicate StepsHonestly(b: Buffer, step: Step) {
    step.Draw? ==> (Marks(b, step.op) ==> |b.clips| == 1) && (step.op.Blit? ==> MarkIsTrue(step.op.source))
  }

  ghost predicate IsHonest(b: Buffer, steps: seq<Step>)
    requires IsRun(b, steps)
    decreases steps
  {
    steps == [] || (StepsHonestly(b, steps[0]) && IsHonest(Stepped(b, steps[0]), steps[1..]))
  }

  lemma StepKeepsMarkTrue(b: Buffer, step: Step)
    requires Sound(b) && CanStep(b, step) && StepsHonestly(b, step) && MarkIsTrue(b)
    ensures Sound(Stepped(b, step)) && MarkIsTrue(Stepped(b, step))
  {
    hide Apply, Marks, Blitted, Copied, BlittedSlowly, Picture, Cropped, Sound;
    match step {
      case Draw(op) => MarkStaysTrue(b, op);
      case Gradient(area, shade) =>
        var crop := Cropped(b, if area.None? then b.logicalArea else area.value);
        ShadedIsSound(b, area, shade);
        if b.isOpaque { DrawingStaysOpaque(b, crop, Shading(shade)); }
      case Materialise => RotatedUprightKeepsMark(b);
    }
  }

  lemma ShadedIsSound(b: Buffer, area: Option<Rectangle>, shade: (int, int) -> Pixel)
    requires Sound(b)
    ensures Sound(Shaded(b, area, shade))
  {
  }

  lemma RotatedUprightKeepsMark(b: Buffer)
    requires Sound(b) && MarkIsTrue(b)
    ensures MarkIsTrue(RotatedUpright(b))
  {
    hide Index, Place;
    var r := RotatedUpright(b);
    if b.isOpaque {
      forall i | 0 <= i < |r.memory| ensures AlphaOf(r.memory[i]) == OPAQUE {
        var upright := b.(rotation := Upright);
        PlaceOnPicture(upright, i);
        IndexInBounds(b, Place(upright, i));
        assert r.memory[i] == PictureCell(b, i);
      }
    }
  }

  /** Over every run of fills, data, gradients, blits, clips and rotate_upright, a buffer marked opaque is. */
  lemma {:induction false} MarkIsAlwaysTrue(b: Buffer, steps: seq<Step>)
    requires Sound(b) && IsRun(b, steps) && IsHonest(b, steps) && MarkIsTrue(b)
    ensures Sound(Run(b, steps)) && MarkIsTrue(Run(b, steps))
    decreases steps
  {
    hide Stepped, CanStep, StepsHonestly;
    if steps != [] {
      StepKeepsMarkTrue(b, steps[0]);
      MarkIsAlwaysTrue(Stepped(b, steps[0]), steps[1..]);
    }
  }

  // ----- changing scale and rotation

  function WithScale(b: Buffer, scale: nat): Buffer
    requires scale >= 1
  {
    b.(scale := scale, logicalArea := Rectangle(b.logicalArea.x, b.logicalArea.y, Truncated(b.area.width, scale), Truncated(b.area.height, scale)))
  }

  /** set_device_rotation: memory stays, the picture turns, and the clips are replaced by the whole area. */
  function WithRotation(b: Buffer, rotation: Rotation): Buffer
    requires b.scale >= 1
  {
    if b.rotation == rotation then b
    else
      var turned := b.(rotation := rotation, area := Rectangle(b.area.x, b.area.y, b.area.height, b.area.width));
      var c := if Sideways(b.rotation) != Sideways(rotation) then WithScale(turned, b.scale) else b.(rotation := rotation);
      c.(clips := [Upscaled(c.area, c.scale)])
  }

  lemma TurningKeepsCells(b: Buffer, rotation: Rotation)
    requires b.scale >= 1
    ensures var c := WithRotation(b, rotation);
      && c.area.x == b.area.x && c.area.y == b.area.y && Cells(c.area) == Cells(b.area) && (IsEmpty(c.area) <==> IsEmpty(b.area))
      && c.scale == b.scale && c.memory == b.memory && c.isOpaque == b.isOpaque
      && (rotation != b.rotation ==> c.clips == [Upscaled(c.area, c.scale)])
  {
    hide Upscaled, Truncated;
  }

  lemma UpscaledIsSameIff(r: Rectangle, scale: nat)
    requires scale >= 1 && r.x == 0 && r.y == 0 && !IsEmpty(r)
    ensures Upscaled(r, scale) == r <==> scale == 1
  {
    if scale > 1 {
      TimesIsLarge(r.width, scale);
    }
  }

  /** The new first clip is the area again exactly when there is no scaling; no pixel changes. */
  lemma RotationIsSoundIff(b: Buffer, rotation: Rotation)
    requires Sound(b) && rotation != b.rotation && !IsEmpty(b.area)
    ensures Sound(WithRotation(b, rotation)) <==> b.scale == 1
    ensures MarkIsTrue(WithRotation(b, rotation)) <==> MarkIsTrue(b)
  {
    hide WithRotation, Cells, Upscaled;
    TurningKeepsCells(b, rotation);
    UpscaledIsSameIff(WithRotation(b, rotation).area, b.scale);
  }
}
