/**
 What attribute sequences do, field by field (on_set_attributes in
 src/libply-splash-core/ply-terminal-emulator.c; section 8.3.117 of ECMA-48): each
 field of the style is decided by the last parameter that speaks of it.
 */
module Rendition {
  import opened Base
  import opened RichText
  import opened Screen
  import opened ControlSequences
  import opened Attributes

  /** The last parameter that decides. */
  function LastOf(ps: seq<uint32>, decides: uint32 -> bool): (last: Option<uint32>)
    ensures last.None? ==> forall i :: 0 <= i < |ps| ==> !decides(ps[i])
    ensures last.Some? ==>
              decides(last.value) && exists i :: 0 <= i < |ps| && ps[i] == last.value && forall k :: i < k < |ps| ==> !decides(ps[k])
  {
    if ps == [] then None
    else
      var n := |ps| - 1;
      if decides(ps[n]) then Some(ps[n]) else LastOf(ps[..n], decides)
  }

  /** 38, 48 and the parameter after each say nothing. */
  function Heard(ps: seq<uint32>): seq<uint32> {
    if ps == [] then []
    else if ps[0] == 38 || ps[0] == 48 then if |ps| == 1 then [] else Heard(ps[2..])
    else [ps[0]] + Heard(ps[1..])
  }

  predicate IsReset(p: uint32) {
    p == 0 || p >= 0x8000_0000
  }

  predicate OnForeground(p: uint32) {
    IsReset(p) || 30 <= p <= 37 || p == 39 || 90 <= p <= 97
  }

  predicate OnBackground(p: uint32) {
    IsReset(p) || 40 <= p <= 47 || p == 49 || 100 <= p <= 107
  }

  predicate OnBold(p: uint32) {
    IsReset(p) || p == 1 || p == 22
  }

  predicate OnDim(p: uint32) {
    IsReset(p) || p == 2 || p == 22 || 90 <= p <= 97
  }

  predicate OnItalic(p: uint32) {
    IsReset(p) || p == 3 || p == 23
  }

  predicate OnUnderline(p: uint32) {
    IsReset(p) || p == 4 || p == 24
  }

  predicate OnReverse(p: uint32) {
    IsReset(p) || p == 7 || p == 27
  }

  /** The colour of a deciding parameter; 9 is the default colour. */
  function ColorOf(p: uint32, plain: int, bright: int): int {
    if plain <= p <= plain + 7 then p - plain else if bright <= p <= bright + 7 then p - bright else 9
  }

  /** `after` is `before` with every field as the last parameter on it says. */
  predicate IsDecided(after: Style, before: Style, ps: seq<uint32>) {
    && after.foreground == (match LastOf(ps, OnForeground) case None => before.foreground case Some(p) => ColorOf(p, 30, 90))
    && after.background == (match LastOf(ps, OnBackground) case None => before.background case Some(p) => ColorOf(p, 40, 100))
    && after.bold == (match LastOf(ps, OnBold) case None => before.bold case Some(p) => p == 1)
    && after.dim == (match LastOf(ps, OnDim) case None => before.dim case Some(p) => p == 2)
    && after.italic == (match LastOf(ps, OnItalic) case None => before.italic case Some(p) => p == 3)
    && after.underline == (match LastOf(ps, OnUnderline) case None => before.underline case Some(p) => p == 4)
    && after.reverse == (match LastOf(ps, OnReverse) case None => before.reverse case Some(p) => p == 7)
  }

  lemma {:induction false} LastOfSum(a: seq<uint32>, b: seq<uint32>, decides: uint32 -> bool)
    ensures LastOf(a + b, decides) == if LastOf(b, decides).Some? then LastOf(b, decides) else LastOf(a, decides)
    decreases b
  {
    if b == [] {
      assert a + b == a;
    } else {
      var n := |b| - 1;
      assert (a + b)[..|a + b| - 1] == a + b[..n];
      LastOfSum(a, b[..n], decides);
    }
  }

  lemma OneDecides(p: uint32, decides: uint32 -> bool)
    ensures LastOf([p], decides) == if decides(p) then Some(p) else None
  {
    assert LastOf([p][..0], decides) == None;
  }

  lemma DecidedByOne(style: Style, p: uint32)
    requires p != 38 && p != 48
    ensures IsDecided(WithAttribute(style, p), style, [p])
  {
    hide LastOf;
    OneDecides(p, OnForeground);
    OneDecides(p, OnBackground);
    OneDecides(p, OnBold);
    OneDecides(p, OnDim);
    OneDecides(p, OnItalic);
    OneDecides(p, OnUnderline);
    OneDecides(p, OnReverse);
  }

  lemma DecidedFurther(last: Style, middle: Style, first: Style, a: seq<uint32>, b: seq<uint32>)
    requires IsDecided(middle, first, a) && IsDecided(last, middle, b)
    ensures IsDecided(last, first, a + b)
  {
    hide LastOf, ColorOf;
    LastOfSum(a, b, OnForeground);
    LastOfSum(a, b, OnBackground);
    LastOfSum(a, b, OnBold);
    LastOfSum(a, b, OnDim);
    LastOfSum(a, b, OnItalic);
    LastOfSum(a, b, OnUnderline);
    LastOfSum(a, b, OnReverse);
  }

  lemma DecidedByNone(style: Style)
    ensures IsDecided(style, style, [])
  {
  }

  /** A whole list of parameters decides each field by the last of them that speaks of it. */
  lemma {:induction false} ParametersDecide(style: Style, ps: seq<uint32>)
    ensures IsDecided(WithAttributes(style, ps), style, Heard(ps))
    decreases |ps|
  {
    hide IsDecided, WithAttribute;
    DecidedByNone(style);
    if ps != [] {
      if ps[0] == 38 || ps[0] == 48 {
        if |ps| > 1 {
          ParametersDecide(style, ps[2..]);
        }
      } else {
        var next := WithAttribute(style, ps[0]);
        DecidedByOne(style, ps[0]);
        ParametersDecide(next, ps[1..]);
        DecidedFurther(WithAttributes(next, ps[1..]), next, style, [ps[0]], Heard(ps[1..]));
      }
    }
  }

  /** All that the attribute sequences of a text say. */
  function AllHeard(ts: seq<Token>): seq<uint32>
    requires AreTokens(ts)
  {
    if ts == [] then []
    else (if ts[0].Attribute? then Heard(Recent(Values(ts[0].fields))) else []) + AllHeard(ts[1..])
  }

  /** So do all the sequences of a text together. */
  lemma {:induction false} TextDecides(style: Style, ts: seq<Token>)
    requires AreTokens(ts)
    ensures IsDecided(StyleAfter(style, ts), style, AllHeard(ts))
    decreases ts
  {
    hide IsDecided, WithAttributes, Recent, Heard;
    DecidedByNone(style);
    if ts != [] {
      if ts[0].Attribute? {
        var ps := Recent(Values(ts[0].fields));
        ParametersDecide(style, ps);
        TextDecides(WithAttributes(style, ps), ts[1..]);
        DecidedFurther(StyleAfter(style, ts), WithAttributes(style, ps), style, Heard(ps), AllHeard(ts[1..]));
      } else {
        TextDecides(style, ts[1..]);
        assert [] + AllHeard(ts[1..]) == AllHeard(ts[1..]);
      }
    }
  }
}
