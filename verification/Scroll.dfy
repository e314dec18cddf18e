/** Scaling a stream of scroll amounts by a fraction without losing what does not
    divide evenly, and a wheel's journey from one Windows machine to another. */
module Scrolling {
  import opened Prelude

  /** What one call of an accumulator yields: the whole units, and what is left
      pending. A denominator that means nothing yields nothing. */
  function TakeWhole(pending: i32, value: i32, numerator: i32, denominator: i32): (i32, i32) {
    if denominator <= 0 then (0, pending) else
    var held := Clamp(pending + value * numerator, I32_MIN, I32_MAX);
    var whole := TruncDiv(held, denominator);
    TruncDivNoLarger(held, denominator);
    (whole, held - whole * denominator)
  }

  /** The quotient, and what taking it out leaves, fit wherever the dividend does. */
  lemma TruncDivNoLarger(a: i32, b: i32)
    requires b > 0
    ensures FitsI32(TruncDiv(a, b)) && FitsI32(TruncDiv(a, b) * b) && FitsI32(a - TruncDiv(a, b) * b)
  {
    var q := TruncDiv(a, b);
    MulSign(q, b);
    MulMonotone(1, b, Abs(q));
    assert Abs(q) <= Abs(q * b) by {
      assert Abs(q * b) == b * Abs(q);
    }
  }

  /** What the clamp cuts off one amount; nothing unless the sum leaves 32 bits. */
  function CutOff(pending: i32, value: i32, numerator: i32): int {
    pending + value * numerator - Clamp(pending + value * numerator, I32_MIN, I32_MAX)
  }

  /** One call accounts for everything: what came in is what went out, what is
      pending, and what the clamp cut off. The pending part is less than one
      whole unit and never opposes the amount it came from. */
  lemma TakeBalances(pending: i32, value: i32, numerator: i32, denominator: i32)
    requires denominator > 0
    ensures var (whole, left) := TakeWhole(pending, value, numerator, denominator);
            var total := pending + value * numerator;
            && total == whole * denominator + left + CutOff(pending, value, numerator)
            && Abs(left) < denominator
            && (left == 0 || Sign(left) == Sign(total)) && (whole == 0 || Sign(whole) == Sign(total))
            && (CutOff(pending, value, numerator) == 0 <==> FitsI32(total))
  {
  }

  /** A denominator that means nothing yields nothing and loses nothing. */
  lemma NoDenominatorNoUnits(pending: i32, value: i32, numerator: i32, denominator: i32)
    requires denominator <= 0
    ensures TakeWhole(pending, value, numerator, denominator) == (0, pending)
  {
  }

  /** The sum is formed in 64 bits, which it cannot leave. */
  lemma TakeFitsI64(pending: i32, value: i32, numerator: i32)
    ensures FitsI64(value * numerator) && FitsI64(pending + value * numerator)
  {
    MulMonotone(I32_MIN, value, Abs(numerator));
    MulMonotone(value, I32_MAX, Abs(numerator));
    assert numerator < 0 ==> value * numerator == -(value * Abs(numerator));
  }

  // ---- Streams of amounts ----

  datatype Amount = Amount(value: i32, numerator: i32, denominator: i32)

  /** Everything a stream adds up to: what went in, whole units out times their
      denominators, what is pending at the end, and what was cut off. */
  datatype Totals = Totals(put: int, taken: int, pending: i32, cut: int)

  function Feed(t: Totals, a: Amount): Totals {
    var (whole, left) := TakeWhole(t.pending, a.value, a.numerator, a.denominator);
    Totals(t.put + a.value * a.numerator, t.taken + whole * a.denominator, left,
           t.cut + CutOff(t.pending, a.value, a.numerator))
  }

  function FeedAll(amounts: seq<Amount>): Totals {
    if amounts == [] then Totals(0, 0, 0, 0)
    else Feed(FeedAll(amounts[..|amounts| - 1]), amounts[|amounts| - 1])
  }

  predicate Positive(amounts: seq<Amount>) {
    forall a | a in amounts :: a.denominator > 0
  }

  /** Over a whole stream, with denominators that may change from one amount to
      the next: nothing is lost but what was cut off, and less than one of the
      last denominator is pending. */
  lemma {:induction false} StreamBalances(amounts: seq<Amount>)
    requires Positive(amounts)
    ensures var t := FeedAll(amounts);
            && t.put == t.taken + t.pending + t.cut
            && (amounts != [] ==> Abs(t.pending) < amounts[|amounts| - 1].denominator)
  {
    if amounts == [] {
    } else {
      var front, a := amounts[..|amounts| - 1], amounts[|amounts| - 1];
      StreamBalances(front);
      TakeBalances(FeedAll(front).pending, a.value, a.numerator, a.denominator);
    }
  }

  /** No sum along the stream left 32 bits, so that no clamp acted. */
  predicate NeverClamps(amounts: seq<Amount>) {
    forall i | 0 <= i < |amounts| ::
      FitsI32(FeedAll(amounts[..i]).pending + amounts[i].value * amounts[i].numerator)
  }

  lemma {:induction false} NothingCutWithoutClamps(amounts: seq<Amount>)
    requires Positive(amounts) && NeverClamps(amounts)
    ensures FeedAll(amounts).cut == 0
  {
    if amounts == [] {
    } else {
      var front, a := amounts[..|amounts| - 1], amounts[|amounts| - 1];
      assert forall i | 0 <= i < |front| :: front[..i] == amounts[..i];
      NothingCutWithoutClamps(front);
      TakeBalances(FeedAll(front).pending, a.value, a.numerator, a.denominator);
    }
  }

  class Scaled {
    var pending: i32

    constructor ()
      ensures pending == 0
    {
      pending := 0;
    }

    method Take(value: i32, numerator: i32, denominator: i32) returns (whole: i32)
      modifies this
      ensures (whole, pending) == TakeWhole(old(pending), value, numerator, denominator)
    {
      if denominator <= 0 {
        return 0;
      }
      var held := Clamp(pending + value * numerator, I32_MIN, I32_MAX);
      TruncDivNoLarger(held, denominator);
      whole := TruncDiv(held, denominator);
      pending := held - whole * denominator;
    }
  }

  class ScrollAccumulator {
    const x: Scaled
    const y: Scaled

    constructor ()
      ensures fresh(x) && fresh(y) && x != y && x.pending == 0 && y.pending == 0
    {
      x := new Scaled();
      y := new Scaled();
    }

    /** Each axis keeps its own remainder: neither borrows the other's. */
    method TakeScaled(dx: i32, dy: i32, numerator: i32, denominatorX: i32, denominatorY: i32)
      returns (wholeX: i32, wholeY: i32)
      requires x != y
      modifies x, y
      ensures (wholeX, x.pending) == TakeWhole(old(x.pending), dx, numerator, denominatorX)
      ensures (wholeY, y.pending) == TakeWhole(old(y.pending), dy, numerator, denominatorY)
    {
      wholeX := x.Take(dx, numerator, denominatorX);
      wholeY := y.Take(dy, numerator, denominatorY);
    }
  }

  // ---- A wheel between two Windows machines ----

  const MILLILINES_PER_LINE: i32 := 1000
  const WHEEL_DELTA: i32 := 120
  const MAX_LINES_PER_NOTCH: i32 := 100

  /** The machine's own setting: lines (or characters) one notch scrolls. */
  type PerNotch = n: i32 | 1 <= n <= MAX_LINES_PER_NOTCH witness 1

  function SaturatingMul(a: i32, b: i32): (r: i32)
    ensures FitsI32(a * b) ==> r == a * b
    ensures !FitsI32(a * b) ==> r == if a * b < 0 then I32_MIN else I32_MAX
  {
    Clamp(a * b, I32_MIN, I32_MAX)
  }

  /** One axis of the journey: the capturing machine's remainder, the injecting
      machine's remainder, and the totals turned in and scrolled out. */
  datatype Journey = Journey(carry: i32, pending: i32, turned: int, scrolled: int)

  /** One wheel event: captured as a distance, sent only if that is not zero, and
      turned back into wheel movement under the other machine's setting. */
  function Travel(j: Journey, raw: i16, own: PerNotch, theirs: PerNotch): Journey {
    var (millilines, carry) := TakeWhole(j.carry, raw, SaturatingMul(own, MILLILINES_PER_LINE), WHEEL_DELTA);
    if millilines == 0 then j.(carry := carry, turned := j.turned + raw) else
    var (wheel, pending) := TakeWhole(j.pending, millilines, WHEEL_DELTA, SaturatingMul(MILLILINES_PER_LINE, theirs));
    Journey(carry, pending, j.turned + raw, j.scrolled + wheel)
  }

  function TravelAll(raws: seq<i16>, own: PerNotch, theirs: PerNotch): Journey {
    if raws == [] then Journey(0, 0, 0, 0)
    else Travel(TravelAll(raws[..|raws| - 1], own, theirs), raws[|raws| - 1], own, theirs)
  }

  /** Neither end clamps this event. */
  predicate TravelsWhole(j: Journey, raw: i16, own: PerNotch, theirs: PerNotch) {
    && FitsI32(j.carry + raw * (own * MILLILINES_PER_LINE))
    && var millilines := TakeWhole(j.carry, raw, SaturatingMul(own, MILLILINES_PER_LINE), WHEEL_DELTA).0;
       FitsI32(j.pending + millilines * WHEEL_DELTA)
  }

  predicate AllTravelWhole(raws: seq<i16>, own: PerNotch, theirs: PerNotch) {
    forall i | 0 <= i < |raws| :: TravelsWhole(TravelAll(raws[..i], own, theirs), raws[i], own, theirs)
  }

  /** Distance in thousandths of a line, times 120: what was turned differs from
      what was scrolled by exactly the two remainders. */
  predicate Balanced(j: Journey, own: PerNotch, theirs: PerNotch) {
    && 1000 * own * j.turned == 1000 * theirs * j.scrolled + j.carry + j.pending
    && Abs(j.carry) < WHEEL_DELTA && Abs(j.pending) < 1000 * theirs
  }

  lemma TravelKeepsBalance(j: Journey, raw: i16, own: PerNotch, theirs: PerNotch)
    requires Balanced(j, own, theirs) && TravelsWhole(j, raw, own, theirs)
    ensures Balanced(Travel(j, raw, own, theirs), own, theirs)
  {
    var n := Travel(j, raw, own, theirs);
    var (millilines, carry) := TakeWhole(j.carry, raw, SaturatingMul(own, MILLILINES_PER_LINE), WHEEL_DELTA);
    TakeBalances(j.carry, raw, SaturatingMul(own, MILLILINES_PER_LINE), WHEEL_DELTA);
    assert j.carry + raw * (own * 1000) == millilines * 120 + carry;
    assert 1000 * own * n.turned == 1000 * own * j.turned + raw * (own * 1000) by {
      Distribute(1000 * own, j.turned, raw);
    }
    if millilines != 0 {
      var (wheel, pending) := TakeWhole(j.pending, millilines, WHEEL_DELTA, SaturatingMul(MILLILINES_PER_LINE, theirs));
      TakeBalances(j.pending, millilines, WHEEL_DELTA, SaturatingMul(MILLILINES_PER_LINE, theirs));
      assert j.pending + millilines * 120 == wheel * (1000 * theirs) + pending;
      Distribute(1000 * theirs, j.scrolled, wheel);
    }
  }

  lemma Distribute(a: int, b: int, c: int)
    ensures a * (b + c) == a * b + c * a
  {
  }

  lemma {:induction false} JourneyBalances(raws: seq<i16>, own: PerNotch, theirs: PerNotch)
    requires AllTravelWhole(raws, own, theirs)
    ensures Balanced(TravelAll(raws, own, theirs), own, theirs)
  {
    if raws == [] {
    } else {
      var front := raws[..|raws| - 1];
      assert forall i | 0 <= i < |front| :: front[..i] == raws[..i];
      JourneyBalances(front, own, theirs);
      assert raws[..|raws| - 1] == front;
      assert TravelsWhole(TravelAll(front, own, theirs), raws[|raws| - 1], own, theirs);
      TravelKeepsBalance(TravelAll(front, own, theirs), raws[|raws| - 1], own, theirs);
    }
  }

  /** The distance scrolled is that turned to within one unit of each kind. */
  predicate Close(j: Journey, own: PerNotch, theirs: PerNotch) {
    Abs(1000 * own * j.turned - 1000 * theirs * j.scrolled) < 120 + 1000 * theirs
  }

  /** However long the stream. */
  lemma WheelDistanceSurvives(raws: seq<i16>, own: PerNotch, theirs: PerNotch)
    requires AllTravelWhole(raws, own, theirs)
    ensures Close(TravelAll(raws, own, theirs), own, theirs)
  {
    JourneyBalances(raws, own, theirs);
    BalancedIsClose(TravelAll(raws, own, theirs), own, theirs);
  }

  lemma BalancedIsClose(j: Journey, own: PerNotch, theirs: PerNotch)
    requires Balanced(j, own, theirs)
    ensures Close(j, own, theirs)
  {
  }

  /** Between machines set alike, the totals never differ by more than one unit
      of a wheel's hundred-and-twentieths, however long the stream. */
  lemma SameSettingLosesAtMostOne(raws: seq<i16>, setting: PerNotch)
    requires AllTravelWhole(raws, setting, setting)
    ensures Abs(TravelAll(raws, setting, setting).turned - TravelAll(raws, setting, setting).scrolled) <= 1
  {
    JourneyBalances(raws, setting, setting);
    BalancedTotalsAreClose(TravelAll(raws, setting, setting), setting);
  }

  lemma BalancedTotalsAreClose(j: Journey, setting: PerNotch)
    requires Balanced(j, setting, setting)
    ensures Abs(j.turned - j.scrolled) <= 1
  {
    CloseTotals(1000 * setting, j.turned, j.scrolled, j.carry + j.pending);
  }

  lemma CloseTotals(unit: int, turned: int, scrolled: int, rest: int)
    requires unit >= 1000 && unit * turned == unit * scrolled + rest && Abs(rest) < 120 + unit
    ensures Abs(turned - scrolled) <= 1
  {
    assert (turned - scrolled) * unit == rest;
    if turned - scrolled > 1 {
      MulMonotone(2, turned - scrolled, unit);
    } else if turned - scrolled < -1 {
      MulMonotone(turned - scrolled, -2, unit);
    }
  }

  /** The clamps act on no stream at all exactly when the capturing machine's
      setting is at most 65: a full-size event at 66 already exceeds 32 bits. */
  lemma WholeIffSettingIsModest(own: PerNotch, theirs: PerNotch)
    ensures own <= 65 <==> forall raws :: AllTravelWhole(raws, own, theirs)
  {
    if own <= 65 {
      forall raws ensures AllTravelWhole(raws, own, theirs) {
        ModestSettingTravelsWhole(raws, own, theirs);
      }
    } else {
      var raws: seq<i16> := [I16_MIN];
      assert raws[..0] == [];
      MulMonotone(66, own, 32768 * 1000);
      assert raws[0] * (own * 1000) == -(own * (32768 * 1000));
      assert !TravelsWhole(TravelAll(raws[..0], own, theirs), raws[0], own, theirs);
      assert !AllTravelWhole(raws, own, theirs);
    }
  }

  lemma {:induction false} ModestSettingTravelsWhole(raws: seq<i16>, own: PerNotch, theirs: PerNotch)
    requires own <= 65
    ensures AllTravelWhole(raws, own, theirs)
  {
    hide TravelsWhole, TravelAll, Balanced;
    if raws == [] {
    } else {
      var front := raws[..|raws| - 1];
      ModestSettingTravelsWhole(front, own, theirs);
      JourneyBalances(front, own, theirs);
      OneModestEvent(TravelAll(front, own, theirs), raws[|raws| - 1], own, theirs);
      forall i | 0 <= i < |raws| ensures TravelsWhole(TravelAll(raws[..i], own, theirs), raws[i], own, theirs) {
        assert i < |front| ==> front[..i] == raws[..i];
      }
    }
  }

  lemma OneModestEvent(j: Journey, raw: i16, own: PerNotch, theirs: PerNotch)
    requires own <= 65 && Balanced(j, own, theirs)
    ensures TravelsWhole(j, raw, own, theirs)
  {
    var r: int := raw;
    MulMonotone(0, own, 1000 * Abs(r));
    MulMonotone(own, 65, 1000 * Abs(r));
    assert r * (own * 1000) == own * (1000 * r);
    assert Abs(r * (own * 1000)) == own * (1000 * Abs(r));
    TakeBalances(j.carry, raw, SaturatingMul(own, MILLILINES_PER_LINE), WHEEL_DELTA);
  }

  // ---- The two adapters as objects ----

  /** The capture half: one axis's carry, and the distances emitted. */
  class WheelSource {
    const carry: Scaled
    var emitted: seq<i32>

    constructor ()
      ensures fresh(carry) && carry.pending == 0 && emitted == []
    {
      carry := new Scaled();
      emitted := [];
    }

    method WheelMillilines(raw: i16, amountPerNotch: i32) returns (millilines: i32)
      modifies carry
      ensures (millilines, carry.pending)
              == TakeWhole(old(carry.pending), raw, SaturatingMul(amountPerNotch, MILLILINES_PER_LINE), WHEEL_DELTA)
    {
      millilines := carry.Take(raw, SaturatingMul(amountPerNotch, MILLILINES_PER_LINE), WHEEL_DELTA);
    }

    method OnWheel(raw: i16, amountPerNotch: i32)
      modifies this, carry
      ensures var (millilines, left) :=
                TakeWhole(old(carry.pending), raw, SaturatingMul(amountPerNotch, MILLILINES_PER_LINE), WHEEL_DELTA);
              && carry.pending == left
              && emitted == if millilines == 0 then old(emitted) else old(emitted) + [millilines]
    {
      var millilines := WheelMillilines(raw, amountPerNotch);
      if millilines != 0 {
        emitted := emitted + [millilines];
      }
    }
  }

  /** The injection half: both axes' remainders, and the wheel movement made. */
  class WindowsSink {
    const scroll: ScrollAccumulator
    var vertical: int
    var horizontal: int

    constructor ()
      ensures fresh(scroll) && fresh(scroll.x) && fresh(scroll.y) && scroll.x != scroll.y
      ensures scroll.x.pending == 0 && scroll.y.pending == 0 && vertical == 0 && horizontal == 0
    {
      scroll := new ScrollAccumulator();
      vertical, horizontal := 0, 0;
    }

    /** `failsY`, `failsX`: the system refuses that axis's movement, should there be
        any. A refused vertical movement keeps the horizontal one from being made,
        but what does not divide evenly is kept on both axes all the same. */
    method InjectScroll(dx: i32, dy: i32, charsPerNotch: i32, linesPerNotch: i32, failsY: bool, failsX: bool)
      returns (ok: bool)
      requires scroll.x != scroll.y
      modifies this, scroll.x, scroll.y
      ensures var (wheelX, leftX) :=
                TakeWhole(old(scroll.x.pending), dx, WHEEL_DELTA, SaturatingMul(MILLILINES_PER_LINE, charsPerNotch));
              var (wheelY, leftY) :=
                TakeWhole(old(scroll.y.pending), dy, WHEEL_DELTA, SaturatingMul(MILLILINES_PER_LINE, linesPerNotch));
              var refusedY := wheelY != 0 && failsY;
              var refusedX := !refusedY && wheelX != 0 && failsX;
              && scroll.x.pending == leftX && scroll.y.pending == leftY
              && (ok <==> !refusedY && !refusedX)
              && vertical == old(vertical) + (if refusedY then 0 else wheelY)
              && horizontal == old(horizontal) + if refusedY || refusedX then 0 else wheelX
    {
      var wheelX, wheelY := scroll.TakeScaled(dx, dy, WHEEL_DELTA, SaturatingMul(MILLILINES_PER_LINE, charsPerNotch),
                                              SaturatingMul(MILLILINES_PER_LINE, linesPerNotch));
      if wheelY != 0 {
        if failsY {
          return false;
        }
        vertical := vertical + wheelY;
      }
      if wheelX != 0 {
        if failsX {
          return false;
        }
        horizontal := horizontal + wheelX;
      }
      return true;
    }
  }

  /** One vertical wheel event, from the hook that sees it to the wheel movement
      injected at the other end, is one step of the journey. */
  method RelayVertical(source: WheelSource, sink: WindowsSink, raw: i16, own: PerNotch, theirs: PerNotch)
    requires sink.scroll.x != sink.scroll.y && source.carry != sink.scroll.x && source.carry != sink.scroll.y
    modifies source, source.carry, sink, sink.scroll.x, sink.scroll.y
    ensures var j := Travel(Journey(old(source.carry.pending), old(sink.scroll.y.pending), 0, old(sink.vertical)),
                            raw, own, theirs);
            && source.carry.pending == j.carry && sink.scroll.y.pending == j.pending
            && sink.vertical == j.scrolled && j.turned == raw
  {
    var before := |source.emitted|;
    source.OnWheel(raw, own);
    if |source.emitted| > before {
      var _ := sink.InjectScroll(0, source.emitted[before], theirs, theirs, false, false);
    }
  }

  /** An event on one axis leaves the other's remainder as it is, once that
      remainder is below one unit. */
  lemma OtherAxisUntouched(pending: i32, numerator: i32, denominator: i32)
    requires Abs(pending) < denominator
    ensures TakeWhole(pending, 0, numerator, denominator) == (0, pending)
  {
    TakeBalances(pending, 0, numerator, denominator);
    MulSign(TakeWhole(pending, 0, numerator, denominator).0, denominator);
  }
}
