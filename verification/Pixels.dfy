/**
 32-bit pixels and their blending (src/libply-splash-core/ply-pixel-buffer.c).

 A pixel holds alpha, red, green and blue, eight bits each; colours are
 premultiplied by alpha.
 */
module Pixels {
  import opened Base
  import opened Arithmetic

  type Pixel = uint32

  const OPAQUE: nat := 255

  function AlphaOf(p: Pixel): byte { p / 0x100_0000 }

  function RedOf(p: Pixel): byte { p / 0x1_0000 % 0x100 }

  function GreenOf(p: Pixel): byte { p / 0x100 % 0x100 }

  function BlueOf(p: Pixel): byte { p % 0x100 }

  function Packed(alpha: byte, red: byte, green: byte, blue: byte): Pixel {
    alpha * 0x100_0000 + red * 0x1_0000 + green * 0x100 + blue
  }

  lemma PackedChannels(alpha: byte, red: byte, green: byte, blue: byte)
    ensures var p := Packed(alpha, red, green, blue);
      AlphaOf(p) == alpha && RedOf(p) == red && GreenOf(p) == green && BlueOf(p) == blue
  {
    var p := Packed(alpha, red, green, blue);
    QuotientOf(p, 0x100_0000, alpha, red * 0x1_0000 + green * 0x100 + blue);
    QuotientOf(p, 0x1_0000, alpha * 0x100 + red, green * 0x100 + blue);
    QuotientOf(p, 0x100, alpha * 0x1_0000 + red * 0x100 + green, blue);
    QuotientOf(alpha * 0x100 + red, 0x100, alpha, red);
    QuotientOf(alpha * 0x1_0000 + red * 0x100 + green, 0x100, alpha * 0x100 + red, green);
  }

  lemma QuotientOf(p: nat, m: nat, q: nat, r: nat)
    requires 0 <= r < m && p == q * m + r
    ensures p / m == q && p % m == r
  {
    RemainderOf(m, q, r);
  }

  lemma ChannelsPacked(p: Pixel)
    ensures Packed(AlphaOf(p), RedOf(p), GreenOf(p), BlueOf(p)) == p
  {
    var a, ar, arg := p / 0x100_0000, p / 0x1_0000, p / 0x100;
    assert arg / 0x100 == ar && ar / 0x100 == a;
    assert p == arg * 0x100 + BlueOf(p) && arg == ar * 0x100 + GreenOf(p) && ar == a * 0x100 + RedOf(p);
  }

  // ----- fixed point

  /** Division by 255, rounded, without dividing: (v + (v >> 8) + 0x80) >> 8. */
  function Rounded(v: nat): nat {
    (v + v / 256 + 128) / 256
  }

  /** A conversion to uint8_t keeps the low eight bits. */
  function LowByte(v: nat): byte {
    v % 256
  }

  function Clamp(v: nat): byte {
    if v < 255 then v else 255
  }

  /** The largest value that is not rounded past a byte is 65153. */
  lemma RoundedFitsIff(v: nat)
    ensures Rounded(v) <= 255 <==> v <= 65153
  {
    var q, r := v / 256, v % 256;
    assert v == 256 * q + r;
    var w := v + q + 128;
    assert Rounded(v) <= 255 <==> w <= 65535;
    if q < 254 {
      assert w <= 65535;
    } else if q > 254 {
      assert w > 65535;
    }
  }

  lemma RoundedIsClose(v: nat)
    requires v <= 255 * 255
    ensures Rounded(v) <= 255
    ensures -128 <= 255 * Rounded(v) - v <= 127
  {
    var q, r := v / 256, v % 256;
    var k := if q + r < 128 then 0 else if q + r < 384 then 1 else 2;
    assert v == 256 * q + r && q <= 254;
    assert v + q + 128 == 256 * (q + k) + (q + r + 128 - 256 * k);
    assert Rounded(v) == q + k;
  }

  lemma RoundedIsMonotone(v: nat, w: nat)
    requires v <= w
    ensures Rounded(v) <= Rounded(w)
  {
    assert v / 256 <= w / 256;
  }

  lemma RoundedUndoesScaling(d: byte)
    ensures Rounded(255 * d) == d
  {
    if d > 0 {
      assert 255 * d == 256 * (d - 1) + (256 - d);
      assert (255 * d) / 256 == d - 1;
    }
  }

  // ----- blending

  lemma TimesIsBounded(x: nat, y: nat, m: nat, n: nat)
    requires x <= m && y <= n
    ensures Times(x, y) <= Times(m, n)
  {
    assert x * y <= m * y;
    assert m * y <= m * n;
  }

  lemma TimesOpaque(n: nat)
    ensures Times(255, n) == Times(n, 255) == 255 * n
  {
  }

  /** One channel of a pixel over an opaque backdrop. */
  function Over(channel: byte, alpha: byte, backdrop: byte): byte {
    LowByte(Rounded(channel * 255 + Times(backdrop, 255 - alpha)))
  }

  /** One channel over a translucent backdrop. */
  function OverTranslucent(channel: byte, alpha: byte, backdrop: byte, backdropAlpha: byte): byte {
    Clamp(Rounded(Times(channel, alpha) + Times(Times(backdrop, backdropAlpha), 255 - alpha)))
  }

  /** blend_two_pixel_values: `p` over `backdrop`. */
  function Blended(p: Pixel, backdrop: Pixel): Pixel {
    var a := AlphaOf(p);
    if AlphaOf(backdrop) == OPAQUE then
      Packed(255, Over(RedOf(p), a, RedOf(backdrop)), Over(GreenOf(p), a, GreenOf(backdrop)), Over(BlueOf(p), a, BlueOf(backdrop)))
    else
      var b := AlphaOf(backdrop);
      Packed(Clamp(Rounded(a * 255 + Times(b, 255 - a))),
             OverTranslucent(RedOf(p), a, RedOf(backdrop), b),
             OverTranslucent(GreenOf(p), a, GreenOf(backdrop), b),
             OverTranslucent(BlueOf(p), a, BlueOf(backdrop), b))
  }

  /** make_pixel_value_translucent: 16-bit products, rounded. */
  function Translucent(p: Pixel, opacity: byte): Pixel {
    if opacity == 255 then p
    else Packed(LowByte(Rounded(Times(AlphaOf(p), opacity))), LowByte(Rounded(Times(RedOf(p), opacity))),
                LowByte(Rounded(Times(GreenOf(p), opacity))), LowByte(Rounded(Times(BlueOf(p), opacity))))
  }

  predicate Premultiplied(p: Pixel) {
    RedOf(p) <= AlphaOf(p) && GreenOf(p) <= AlphaOf(p) && BlueOf(p) <= AlphaOf(p)
  }

  /** `out` is `scaled` / 255, to the precision of the fixed-point division. */
  predicate IsScaledDown(out: int, scaled: int) {
    -128 <= 255 * out - scaled <= 128
  }

  /** Compositing a premultiplied channel onto an opaque one does not wrap around. */
  lemma OverIsExact(channel: byte, alpha: byte, backdrop: byte)
    requires channel <= alpha
    ensures IsScaledDown(Over(channel, alpha, backdrop), 255 * channel + Times(backdrop, 255 - alpha))
  {
    hide Rounded, Times;
    TimesIsBounded(backdrop, 255 - alpha, 255, 255 - alpha);
    TimesOpaque(255 - alpha);
    RoundedIsClose(channel * 255 + Times(backdrop, 255 - alpha));
  }

  /** Without that, it does: a white channel that claims to be fully transparent comes out as 254, not 255 or more. */
  lemma OverWrapsAround()
    ensures Over(255, 0, 255) == 254
  {
  }

  /**
   A premultiplied pixel over an opaque backdrop: no channel wraps, the result is
   opaque, and each channel is the composited value to within half a step.
   */
  lemma BlendedOverOpaque(p: Pixel, backdrop: Pixel)
    requires Premultiplied(p) && AlphaOf(backdrop) == OPAQUE
    ensures var (out, a) := (Blended(p, backdrop), AlphaOf(p));
      && AlphaOf(out) == OPAQUE
      && IsScaledDown(RedOf(out), 255 * RedOf(p) + Times(RedOf(backdrop), 255 - a))
      && IsScaledDown(GreenOf(out), 255 * GreenOf(p) + Times(GreenOf(backdrop), 255 - a))
      && IsScaledDown(BlueOf(out), 255 * BlueOf(p) + Times(BlueOf(backdrop), 255 - a))
  {
    hide AlphaOf, RedOf, GreenOf, BlueOf, Packed, Over, Times;
    var a := AlphaOf(p);
    OverIsExact(RedOf(p), a, RedOf(backdrop));
    OverIsExact(GreenOf(p), a, GreenOf(backdrop));
    OverIsExact(BlueOf(p), a, BlueOf(backdrop));
    PackedChannels(255, Over(RedOf(p), a, RedOf(backdrop)), Over(GreenOf(p), a, GreenOf(backdrop)),
                   Over(BlueOf(p), a, BlueOf(backdrop)));
  }

  /** Blending onto an opaque pixel gives an opaque pixel, premultiplied or not. */
  lemma BlendedStaysOpaque(p: Pixel, backdrop: Pixel)
    requires AlphaOf(backdrop) == OPAQUE
    ensures AlphaOf(Blended(p, backdrop)) == OPAQUE
  {
    hide AlphaOf, RedOf, GreenOf, BlueOf, Packed, Over, Times;
    var a := AlphaOf(p);
    PackedChannels(255, Over(RedOf(p), a, RedOf(backdrop)), Over(GreenOf(p), a, GreenOf(backdrop)),
                   Over(BlueOf(p), a, BlueOf(backdrop)));
  }

  lemma NothingOver(backdrop: byte)
    ensures Over(0, 0, backdrop) == backdrop
  {
    hide Times, Rounded;
    RoundedUndoesScaling(backdrop);
    TimesOpaque(backdrop);
    assert Over(0, 0, backdrop) == LowByte(Rounded(255 * backdrop));
  }

  /** A fully transparent premultiplied pixel changes nothing. */
  lemma TransparentIsIdentity(p: Pixel, backdrop: Pixel)
    requires Premultiplied(p) && AlphaOf(p) == 0 && AlphaOf(backdrop) == OPAQUE
    ensures Blended(p, backdrop) == backdrop
  {
    hide AlphaOf, RedOf, GreenOf, BlueOf, Packed, Over, Times;
    NothingOver(RedOf(backdrop));
    NothingOver(GreenOf(backdrop));
    NothingOver(BlueOf(backdrop));
    ChannelsPacked(backdrop);
  }

  lemma ScaledChannel(channel: byte, alpha: byte, opacity: byte)
    requires channel <= alpha
    ensures var out := LowByte(Rounded(Times(channel, opacity)));
      && IsScaledDown(out, Times(channel, opacity))
      && out <= LowByte(Rounded(Times(alpha, opacity)))
  {
    hide Rounded, Times;
    TimesIsBounded(channel, opacity, alpha, opacity);
    TimesIsBounded(alpha, opacity, 255, 255);
    TimesOpaque(255);
    RoundedIsClose(Times(channel, opacity));
    RoundedIsClose(Times(alpha, opacity));
    RoundedIsMonotone(Times(channel, opacity), Times(alpha, opacity));
  }

  /** Scaling by an opacity meets the same error bound and keeps a pixel premultiplied. */
  lemma TranslucentIsScaled(p: Pixel, opacity: byte)
    requires Premultiplied(p)
    ensures var out := Translucent(p, opacity);
      && Premultiplied(out)
      && IsScaledDown(AlphaOf(out), Times(AlphaOf(p), opacity))
      && IsScaledDown(RedOf(out), Times(RedOf(p), opacity))
      && IsScaledDown(GreenOf(out), Times(GreenOf(p), opacity))
      && IsScaledDown(BlueOf(out), Times(BlueOf(p), opacity))
  {
    hide AlphaOf, RedOf, GreenOf, BlueOf, Packed, LowByte, Rounded, Times;
    forall c: byte ensures Times(c, 255) == 255 * c {
      TimesOpaque(c);
    }
    if opacity != 255 {
      var a := AlphaOf(p);
      ScaledChannel(a, a, opacity);
      ScaledChannel(RedOf(p), a, opacity);
      ScaledChannel(GreenOf(p), a, opacity);
      ScaledChannel(BlueOf(p), a, opacity);
      PackedChannels(LowByte(Rounded(Times(a, opacity))), LowByte(Rounded(Times(RedOf(p), opacity))),
                     LowByte(Rounded(Times(GreenOf(p), opacity))), LowByte(Rounded(Times(BlueOf(p), opacity))));
    }
  }

  /** What is written where `p` is drawn on `backdrop`: opaque pixels replace it. */
  function Inked(p: Pixel, backdrop: Pixel): Pixel {
    if AlphaOf(p) != OPAQUE then Blended(p, backdrop) else p
  }
}
