/**
 Half-open rectangles (src/libply/ply-rectangle.c and the scaling helpers of
 src/libply-splash-core/ply-pixel-buffer.c).
 */
module Rectangles {
  import opened Arithmetic

  datatype Rectangle = Rectangle(x: int, y: int, width: nat, height: nat)

  predicate IsEmpty(r: Rectangle) {
    r.width == 0 || r.height == 0
  }

  predicate Contains(r: Rectangle, x: int, y: int) {
    r.x <= x < r.x + r.width && r.y <= y < r.y + r.height
  }

  function Max(a: int, b: int): int { if a > b then a else b }

  function Min(a: int, b: int): int { if a < b then a else b }

  /** ply_rectangle_intersect, which works on the last column and row, inclusively. */
  function Intersect(a: Rectangle, b: Rectangle): Rectangle {
    if IsEmpty(a) then a
    else if IsEmpty(b) then b
    else
      var left, top := Max(a.x, b.x), Max(a.y, b.y);
      var right, bottom := Min(a.x + a.width - 1, b.x + b.width - 1), Min(a.y + a.height - 1, b.y + b.height - 1);
      var width := if right >= left then right - left + 1 else 0;
      var height := if bottom >= top then bottom - top + 1 else 0;
      if width == 0 || height == 0 then Rectangle(left, top, 0, 0) else Rectangle(left, top, width, height)
  }

  lemma IntersectIsIntersection(a: Rectangle, b: Rectangle, x: int, y: int)
    ensures Contains(Intersect(a, b), x, y) <==> Contains(a, x, y) && Contains(b, x, y)
  {
  }

  lemma TimesIsLarge(n: nat, scale: nat)
    requires n >= 1 && scale >= 2
    ensures Times(n, scale) >= n + 1
  {
    Distributes(scale - 1, 1, n);
    MultipleIsLarge(scale - 1, n);
  }

  function Upscaled(r: Rectangle, scale: nat): Rectangle {
    Rectangle(Times(r.x, scale), Times(r.y, scale), Times(r.width, scale), Times(r.height, scale))
  }

  /** C division of a long drops the fraction. */
  function Truncated(a: int, scale: nat): (q: int)
    requires scale >= 1
    ensures a >= 0 ==> q >= 0
  {
    if a >= 0 then a / scale else 0 - ((0 - a) / scale)
  }

  function Downscaled(r: Rectangle, scale: nat): Rectangle
    requires scale >= 1
  {
    Rectangle(Truncated(r.x, scale), Truncated(r.y, scale), Truncated(r.width, scale), Truncated(r.height, scale))
  }

  /** All four numbers are multiples of the scale. */
  predicate IsMultiple(r: Rectangle, scale: nat)
    requires scale >= 1
  {
    Upscaled(Downscaled(r, scale), scale) == r
  }

  lemma TruncatedProduct(a: int, scale: nat)
    requires scale >= 1
    ensures Truncated(Times(a, scale), scale) == a
  {
    if a >= 0 {
      RemainderOf(scale, a, 0);
    } else {
      Distributes(0, a, scale);
      RemainderOf(scale, 0 - a, 0);
      MultipleIsLarge(a, scale);
    }
  }

  lemma DownscaledUpscaled(r: Rectangle, scale: nat)
    requires scale >= 1
    ensures Downscaled(Upscaled(r, scale), scale) == r
  {
    TruncatedProduct(r.x, scale);
    TruncatedProduct(r.y, scale);
    TruncatedProduct(r.width, scale);
    TruncatedProduct(r.height, scale);
  }

  /** What is left of a rectangle inside all clips. */
  function Clipped(r: Rectangle, clips: seq<Rectangle>): Rectangle
    decreases clips
  {
    if clips == [] then r else Clipped(Intersect(r, clips[0]), clips[1..])
  }

  predicate InAll(clips: seq<Rectangle>, x: int, y: int) {
    forall i :: 0 <= i < |clips| ==> Contains(clips[i], x, y)
  }

  lemma {:induction false} ClippedIsIntersection(r: Rectangle, clips: seq<Rectangle>, x: int, y: int)
    ensures Contains(Clipped(r, clips), x, y) <==> Contains(r, x, y) && InAll(clips, x, y)
    decreases clips
  {
    if clips != [] {
      IntersectIsIntersection(r, clips[0], x, y);
      ClippedIsIntersection(Intersect(r, clips[0]), clips[1..], x, y);
      assert InAll(clips, x, y) <==> Contains(clips[0], x, y) && InAll(clips[1..], x, y) by {
        if Contains(clips[0], x, y) && InAll(clips[1..], x, y) {
          forall i | 0 <= i < |clips| ensures Contains(clips[i], x, y) {
            if i > 0 { assert clips[i] == clips[1..][i - 1]; }
          }
        }
      }
    }
  }
}
