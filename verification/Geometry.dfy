/** Screens, points and edges, and the rescaling of a movement captured on one
    screen for use on another. */
module Geometry {
  import opened Prelude

  type MachineId = nat

  /** A screen side. Zero makes the layout's own clamp meaningless, and a side
      beyond 32 signed bits cannot be sent as a cursor position. */
  type Side = n: nat | 1 <= n <= I32_MAX witness 1

  datatype Screen = Screen(width: Side, height: Side)

  datatype Point = Point(x: nat, y: nat)

  datatype MouseDelta = MouseDelta(dx: i32, dy: i32)

  datatype Edge = Left | Right | Top | Bottom

  function Opposite(e: Edge): (o: Edge)
    ensures o != e && IsHorizontal(o) == IsHorizontal(e)
  {
    match e
    case Left => Right
    case Right => Left
    case Top => Bottom
    case Bottom => Top
  }

  predicate IsHorizontal(e: Edge) {
    e.Left? || e.Right?
  }

  predicate InScreen(p: Point, s: Screen) {
    p.x < s.width && p.y < s.height
  }

  const ORIGIN := Point(0, 0)

  // ---- Rescaling a movement ----

  function ScaleDelta(delta: MouseDelta, from: Screen, to: Screen): MouseDelta {
    MouseDelta(ScaleAxis(delta.dx, from.width, to.width), ScaleAxis(delta.dy, from.height, to.height))
  }

  function ScaleAxis(delta: i32, from: u32, to: u32): i32 {
    if delta == 0 || from == 0 || to == 0 || from == to then
      delta
    else
      var scaled := TruncDiv(delta * to, from);
      if scaled == 0 then Sign(delta) else WrapI32(scaled)
  }

  /** The scaled movement is representable, so that the final cast keeps it. */
  predicate ScaleFits(delta: i32, from: u32, to: u32) {
    from > 0 ==> FitsI32(TruncDiv(delta * to, from))
  }

  /** No step of the computation leaves 64 signed bits. */
  lemma ScaleAxisFitsI64(delta: i32, from: u32, to: u32)
    requires from > 0
    ensures FitsI64(delta * to) && FitsI64(TruncDiv(delta * to, from))
  {
    MulMonotone(I32_MIN, delta, to);
    MulMonotone(delta, I32_MAX, to);
  }

  /** Scaling matches the fraction of the screen covered to within one pixel of
      the target, keeps the direction, and never loses a movement. */
  lemma ScaleAxisMeaning(delta: i32, from: u32, to: u32)
    requires from > 0 && to > 0 && ScaleFits(delta, from, to)
    ensures Sign(ScaleAxis(delta, from, to)) == Sign(delta)
    ensures Abs(ScaleAxis(delta, from, to) * from - delta * to) < from
  {
    MulSign(delta, to);
    if delta != 0 && from != to {
      assert Sign(delta * to) == Sign(delta);
    }
  }

  /** It never goes further than the fraction covered, short of a whole pixel, and
      a screen without a size leaves movements alone. */
  lemma ScaleAxisNeverOvershoots(delta: i32, from: u32, to: u32)
    requires ScaleFits(delta, from, to)
    ensures from == 0 || to == 0 ==> ScaleAxis(delta, from, to) == delta
    ensures from > 0 && to > 0 ==>
              Abs(ScaleAxis(delta, from, to) * from) <= Abs(delta * to) || Abs(ScaleAxis(delta, from, to)) == 1
  {
  }

  lemma ScaleAxisIsOdd(delta: i32, from: u32, to: u32)
    requires delta != I32_MIN
    requires ScaleFits(delta, from, to) && ScaleFits(-delta, from, to)
    ensures ScaleAxis(-delta, from, to) == -ScaleAxis(delta, from, to)
  {
    if from > 0 {
      assert (-delta) * to == -(delta * to);
      TruncDivOdd(delta * to, from);
    }
  }

  lemma ScaleAxisIsMonotone(delta: i32, delta': i32, from: u32, to: u32)
    requires delta <= delta' && from > 0 && to > 0
    requires ScaleFits(delta, from, to) && ScaleFits(delta', from, to)
    ensures ScaleAxis(delta, from, to) <= ScaleAxis(delta', from, to)
  {
    MulMonotone(delta, delta', to);
    TruncDivMonotone(delta * to, delta' * to, from);
    ScaleAxisMeaning(delta, from, to);
    ScaleAxisMeaning(delta', from, to);
  }

  /** A move across the whole of one screen crosses the whole of the other. */
  lemma ScaleAxisFullScreen(from: i32, to: i32)
    requires from > 0 && to > 0
    ensures ScaleAxis(from, from, to) == to && ScaleAxis(-from, from, to) == -to
  {
    assert from * to == to * from && (-from) * to == (-to) * from;
    TruncDivExact(to, from);
    TruncDivExact(-to, from);
  }

  /** Exactly when the direction survives. The quotient is computed in 64 bits
      and then cast to 32, and the cast discards its high half: the direction is
      right only when the low half, read on its own, is in the right range. */
  predicate SurvivesScaling(delta: i32, from: u32, to: u32) {
    delta == 0 || from == 0 || to == 0 || from == to ||
    var q := Abs(delta) * to / from;
    q == 0 || 1 <= q % 0x1_0000_0000 <= if delta > 0 then I32_MAX else -I32_MIN
  }

  lemma ScaleAxisKeepsDirectionIff(delta: i32, from: u32, to: u32)
    ensures Sign(ScaleAxis(delta, from, to)) == Sign(delta) <==> SurvivesScaling(delta, from, to)
  {
    if delta != 0 && from != 0 && to != 0 && from != to {
      hide TruncDiv, WrapI32;
      ScaledQuotient(delta, from, to);
      WrapKeepsDirectionIff(Abs(delta) * to / from);
    }
  }

  /** The quotient's size, whatever the direction, and what scaling makes of it. */
  lemma ScaledQuotient(delta: i32, from: u32, to: u32)
    requires delta != 0 && from > 0 && to > 0 && from != to
    ensures var covered := Abs(delta) * to;
            var q := covered / from;
            && 0 <= q
            && delta * to == Sign(delta) * covered
            && TruncDiv(delta * to, from) == (if delta > 0 then q else -q)
            && ScaleAxis(delta, from, to) == if q == 0 then Sign(delta) else WrapI32(if delta > 0 then q else -q)
  {
    MulSign(Abs(delta), to);
    DivBounds(Abs(delta) * to, from);
    assert delta < 0 ==> delta * to == -(Abs(delta) * to);
  }

  lemma WrapKeepsDirectionIff(q: int)
    requires q >= 0
    ensures WrapI32(q) > 0 <==> 1 <= q % 0x1_0000_0000 <= I32_MAX
    ensures WrapI32(-q) < 0 <==> 1 <= q % 0x1_0000_0000 <= -I32_MIN
  {
    assert (-q) % 0x1_0000_0000 ==
           if q % 0x1_0000_0000 == 0 then 0 else 0x1_0000_0000 - q % 0x1_0000_0000;
  }

  lemma FittingMovementsSurvive(delta: i32, from: u32, to: u32)
    requires ScaleFits(delta, from, to)
    ensures SurvivesScaling(delta, from, to)
  {
    ScaleAxisKeepsDirectionIff(delta, from, to);
    if from > 0 && to > 0 {
      ScaleAxisMeaning(delta, from, to);
    }
  }

  /** A movement that does turn round: doubling the largest movement. */
  lemma ScaleAxisCanFlip()
    ensures ScaleAxis(I32_MAX, 1, 2) == -2
    ensures !ScaleFits(I32_MAX, 1, 2)
  {
    assert TruncDiv(I32_MAX * 2, 1) == 0xffff_fffe;
  }

  // ---- Rounding ----

  /** How far a number of target pixels is from the fraction covered, in parts of
      a pixel. */
  function Miss(pixels: int, exact: int, from: u32): nat {
    Abs(pixels * from - exact)
  }

  /** No whole number of target pixels is closer to the fraction covered. */
  ghost predicate IsNearest(pixels: int, exact: int, from: u32) {
    forall other: int :: Miss(pixels, exact, from) <= Miss(other, exact, from)
  }

  /** The amount below one pixel is at least a half, or the part cut off at most a
      half: when scaling, which truncates and never goes below one pixel, agrees
      with rounding to nearest. */
  predicate RoundsToNearest(delta: i32, from: u32, to: u32)
    requires from > 0
  {
    delta == 0 || from == to ||
    var covered := Abs(delta) * to;
    if covered < from then 2 * covered >= from else 2 * (covered % from) <= from
  }

  /** For any movement between non-empty screens: the result is the nearest
      exactly when it fits and the fraction falls on the right side of a half. */
  lemma ScaleAxisIsNearestIff(delta: i32, from: u32, to: u32)
    requires from > 0 && to > 0
    ensures IsNearest(ScaleAxis(delta, from, to), delta * to, from) <==>
            ScaleFits(delta, from, to) && RoundsToNearest(delta, from, to)
  {
    hide *;
    NearestIffWithinHalf(ScaleAxis(delta, from, to), delta * to, from);
    if delta == 0 || from == to {
      UnscaledIsExact(delta, from, to);
    } else {
      ScaledIsNearestIff(delta, from, to);
    }
  }

  lemma UnscaledIsExact(delta: i32, from: u32, to: u32)
    requires from > 0 && to > 0 && (delta == 0 || from == to)
    ensures Miss(ScaleAxis(delta, from, to), delta * to, from) == 0
    ensures ScaleFits(delta, from, to) && RoundsToNearest(delta, from, to)
  {
    assert delta * from == delta * to;
    TruncDivExact(delta, from);
  }

  lemma ScaledIsNearestIff(delta: i32, from: u32, to: u32)
    requires delta != 0 && from > 0 && to > 0 && from != to
    ensures 2 * Miss(ScaleAxis(delta, from, to), delta * to, from) <= from <==>
            ScaleFits(delta, from, to) && RoundsToNearest(delta, from, to)
  {
    hide ScaleAxis, TruncDiv, WrapI32, Miss;
    ScaledQuotient(delta, from, to);
    MissOfQuotient(delta, from, Abs(delta) * to);
    NoWholeUnit(Abs(delta) * to, from);
  }

  lemma NoWholeUnit(a: nat, b: int)
    requires b > 0
    ensures a / b == 0 <==> a < b
  {
    DivBounds(a, b);
    MulSign(a / b, b);
  }

  /** By how much a truncated, never vanishing and then cast quotient misses. */
  lemma MissOfQuotient(delta: i32, from: u32, covered: nat)
    requires delta != 0 && from > 0
    ensures var q := covered / from;
            var signed := if delta > 0 then q else -q;
            var exact := Sign(delta) * covered;
            && (q == 0 ==> Miss(Sign(delta), exact, from) == from - covered)
            && (FitsI32(signed) ==> Miss(WrapI32(signed), exact, from) == covered % from)
            && (!FitsI32(signed) ==> 2 * Miss(WrapI32(signed), exact, from) > from)
  {
    var q := covered / from;
    var signed, exact := if delta > 0 then q else -q, Sign(delta) * covered;
    DivBounds(covered, from);
    assert covered == q * from + covered % from;
    assert (-q) * from == -(q * from);
    if !FitsI32(signed) {
      WrapGoesFar(signed, exact, from);
    }
  }

  lemma NearestIffWithinHalf(scaled: int, exact: int, from: u32)
    requires from > 0
    ensures IsNearest(scaled, exact, from) <==> 2 * Miss(scaled, exact, from) <= from
  {
    if 2 * Miss(scaled, exact, from) <= from {
      forall other: int ensures Miss(scaled, exact, from) <= Miss(other, exact, from) {
        MulSign(other - scaled, from);
        assert (other - scaled) * from == other * from - scaled * from;
      }
    } else {
      var other := if scaled * from > exact then scaled - 1 else scaled + 1;
      assert (scaled - 1) * from == scaled * from - from;
      assert (scaled + 1) * from == scaled * from + from;
      assert Miss(other, exact, from) < Miss(scaled, exact, from);
    }
  }

  /** A cast that changes a quotient changes it by at least 2^32. */
  lemma WrapGoesFar(q: int, exact: int, from: u32)
    requires from > 0 && !FitsI32(q) && Abs(exact - q * from) < from
    ensures 2 * Miss(WrapI32(q), exact, from) > from
  {
    var off := WrapI32(q) - q;
    assert off % 0x1_0000_0000 == 0 && off != 0;
    MulSign(off, from);
    if off > 0 {
      MulMonotone(2, off, from);
    } else {
      MulMonotone(off, -2, from);
    }
    assert WrapI32(q) * from == q * from + off * from;
  }

  /** An ordinary movement that is not rounded to the nearest: one pixel of three
      scaled to five is 5/3, and comes out as one. */
  lemma ScaleAxisCanRoundAway()
    ensures ScaleAxis(1, 3, 5) == 1 && ScaleFits(1, 3, 5)
    ensures !IsNearest(ScaleAxis(1, 3, 5), 1 * 5, 3)
  {
    ScaleAxisIsNearestIff(1, 3, 5);
  }
}
