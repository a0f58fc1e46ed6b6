/** How many tokens an exit leg sells (`ladder.ts`). Prices and fractions are reals, so float rounding is not modelled. */
module Ladder {
  import opened Prelude
  import opened Arith

  datatype Decision = Decision(sell: nat, final: bool)

  /** Thresholds of the fixed-fraction ladder. */
  datatype FixedOpts = FixedOpts(stopX: real, moonX: real, moonFrac: real)

  /** Fractions of the price-conditional ladder. */
  datatype CurveOpts = CurveOpts(firstFrac: real, stopFrac: real)

  /** `Math.round` of a fraction taken in basis points. */
  function Bps(frac: real): int { (frac * 10_000.0 + 0.5).Floor }

  /** `BigInt` division truncates toward zero. */
  function TruncDiv(a: int, b: nat): int
    requires b > 0
  {
    if a >= 0 then a / b else -(-a / b)
  }

  function Share(of: nat, bps: int): int { TruncDiv(of * bps, 10_000) }

  /** Clamped to what is held. */
  function Clamp(want: int, remaining: nat): nat {
    if want > remaining then remaining else if want < 0 then 0 else want
  }

  /** A leg that would leave no more than dust takes the rest along and closes the account. */
  function Finish(sell: nat, remaining: nat, dust: nat, dumpAll: bool): (d: Decision)
    requires sell <= remaining
    ensures d.sell <= remaining
    ensures d.final <==> d.sell == remaining
    ensures !d.final ==> remaining - d.sell > dust && d.sell == sell && !dumpAll
    ensures d.final <==> dumpAll || remaining - sell <= dust
  {
    if dumpAll || remaining - sell <= dust then Decision(remaining, true) else Decision(sell, false)
  }

  /** What the fixed-fraction ladder wants to sell before it looks at the remainder. */
  function FixedWant(original: nat, frac: real, multiple: Option<real>, opts: FixedOpts): int {
    if frac == 0.0 then 0
    else if multiple.Some? && multiple.value >= opts.moonX then Share(original, Bps(opts.moonFrac))
    else Share(original, Bps(frac))
  }

  /** `frac == None` is the force-out. */
  function DecideLegSize(original: nat, remaining: nat, frac: Option<real>, multiple: Option<real>, opts: FixedOpts, dust: nat): (d: Decision)
    ensures d.sell <= remaining && (d.final <==> d.sell == remaining)
    ensures !d.final ==> remaining - d.sell > dust
    ensures frac.None? || (multiple.Some? && multiple.value <= opts.stopX) ==> d == Decision(remaining, true)
    ensures frac == Some(0.0) && remaining > dust && (multiple.None? || multiple.value > opts.stopX) ==> d.sell == 0
  {
    var dumpAll := frac.None? || (multiple.Some? && multiple.value <= opts.stopX);
    var sell := if dumpAll then remaining else Clamp(FixedWant(original, frac.value, multiple, opts), remaining);
    Finish(sell, remaining, dust, dumpAll)
  }

  /** What the price-conditional ladder wants to sell. */
  function CurveWant(original: nat, remaining: nat, multiple: Option<real>, first: bool, opts: CurveOpts): int {
    if first then Share(original, Bps(opts.firstFrac))
    else if multiple.None? then Share(original, 1750)
    else if multiple.value <= 0.8 then Share(remaining, Bps(opts.stopFrac))
    else if multiple.value <= 1.0 then Share(original, 3000)
    else if multiple.value <= 1.5 then Share(original, 1750)
    else if multiple.value <= 2.0 then Share(original, 400)
    else Share(original, 180)
  }

  function DecideLegSizeCurve(
    original: nat, remaining: nat, multiple: Option<real>, first: bool, forceOut: bool, opts: CurveOpts, dust: nat): (d: Decision)
    ensures d.sell <= remaining && (d.final <==> d.sell == remaining)
    ensures !d.final ==> remaining - d.sell > dust
    ensures forceOut ==> d == Decision(remaining, true)
  {
    if forceOut then Decision(remaining, true)
    else Finish(Clamp(CurveWant(original, remaining, multiple, first, opts), remaining), remaining, dust, false)
  }

  // ---------------------------------------------------------------- laws of the decisions

  lemma ShareMonotone(of: nat, a: int, b: int)
    requires a <= b
    ensures Share(of, a) <= Share(of, b)
  {
    MulMonotone(a, b, of);
    TruncMonotone(of * a, of * b, 10_000);
  }

  lemma TruncMonotone(a: int, b: int, d: nat)
    requires a <= b && d > 0
    ensures TruncDiv(a, d) <= TruncDiv(b, d)
  {
    if a < 0 && b >= 0 {
      assert -a / d >= 0 && b / d >= 0;
    } else {
      DivMonotone(if a >= 0 then a else -b, if a >= 0 then b else -a, d);
    }
  }

  lemma DivMonotone(a: nat, b: nat, d: nat)
    requires a <= b && d > 0
    ensures a / d <= b / d
  {
    QuotMonotone(a, b, d);
  }

  /** The sell is the wish clamped to the balance, unless that would strand dust. */
  lemma FinishMonotone(a: nat, b: nat, remaining: nat, dust: nat)
    requires a <= b <= remaining
    ensures Finish(a, remaining, dust, false).sell <= Finish(b, remaining, dust, false).sell
  {
  }

  /** Above the stop, a dearer position never sells more: the price-conditional ladder lets winners run. */
  lemma DearerSellsLess(original: nat, remaining: nat, low: real, high: real, opts: CurveOpts, dust: nat)
    requires 0.8 < low <= high
    ensures DecideLegSizeCurve(original, remaining, Some(high), false, false, opts, dust).sell
         <= DecideLegSizeCurve(original, remaining, Some(low), false, false, opts, dust).sell
  {
    hide Finish, Share;
    ShareMonotone(original, 180, 400);
    ShareMonotone(original, 400, 1750);
    ShareMonotone(original, 1750, 3000);
    var a := Clamp(CurveWant(original, remaining, Some(high), false, opts), remaining);
    var b := Clamp(CurveWant(original, remaining, Some(low), false, opts), remaining);
    FinishMonotone(a, b, remaining, dust);
  }

  // ---------------------------------------------------------------- what a leg sells

  /** `bps` is the fraction in basis points, rounded to the nearest. */
  predicate Nearest(bps: int, frac: real) {
    bps as real - 0.5 <= frac * 10_000.0 < bps as real + 0.5
  }

  /** `want` is that share of an amount, rounded down. */
  predicate IsShare(want: nat, of: nat, bps: int) {
    10_000 * want <= of * bps < 10_000 * (want + 1)
  }

  /** The wish is granted unless the rest would be dust; then everything goes. */
  predicate Grants(d: Decision, want: nat, remaining: nat, dust: nat) {
    d == if want + dust < remaining then Decision(want, false) else Decision(remaining, true)
  }

  lemma ShareIsShare(of: nat, bps: nat)
    ensures Share(of, bps) >= 0 && IsShare(Share(of, bps), of, bps)
  {
    var n := of * bps;
    assert n >= 0;
    assert n / 10_000 * 10_000 <= n < (n / 10_000 + 1) * 10_000;
  }

  lemma BpsIsNearest(frac: real)
    ensures Nearest(Bps(frac), frac) && (frac >= 0.0 ==> Bps(frac) >= 0)
  {
  }

  lemma FinishGrants(want: nat, remaining: nat, dust: nat)
    ensures Grants(Finish(Clamp(want, remaining), remaining, dust, false), want, remaining, dust)
  {
  }

  /** Above the stop, a fractional leg sells its fraction of the original position, or the moon fraction at or above the moon. */
  lemma FixedLegSells(original: nat, remaining: nat, frac: real, multiple: Option<real>, opts: FixedOpts, dust: nat)
    requires frac > 0.0 && opts.moonFrac >= 0.0 && (multiple.Some? ==> multiple.value > opts.stopX)
    ensures exists bps: int, want: nat ::
              && Nearest(bps, if multiple.Some? && multiple.value >= opts.moonX then opts.moonFrac else frac)
              && IsShare(want, original, bps)
              && Grants(DecideLegSize(original, remaining, Some(frac), multiple, opts, dust), want, remaining, dust)
  {
    var chosen := if multiple.Some? && multiple.value >= opts.moonX then opts.moonFrac else frac;
    var bps := Bps(chosen);
    BpsIsNearest(chosen);
    ShareIsShare(original, bps);
    var want: nat := Share(original, bps);
    FinishGrants(want, remaining, dust);
    hide Share, Bps, Finish, Nearest, IsShare, Grants;
    assert Nearest(bps, chosen) && IsShare(want, original, bps);
    assert Grants(DecideLegSize(original, remaining, Some(frac), multiple, opts, dust), want, remaining, dust);
  }

  /**
   The price-conditional leg, tier by tier: the first leg sells its fixed fraction; losing positions a
   fraction of the remainder; all others 30%, 17.5%, 4% or 1.8% of the original as they get dearer, and
   17.5% when no price is known.
   */
  lemma CurveLegSells(original: nat, remaining: nat, multiple: Option<real>, first: bool, opts: CurveOpts, dust: nat)
    requires opts.firstFrac >= 0.0 && opts.stopFrac >= 0.0
    ensures exists bps: int, want: nat ::
              && (first ==> Nearest(bps, opts.firstFrac) && IsShare(want, original, bps))
              && (!first && multiple.None? ==> IsShare(want, original, 1_750))
              && (!first && multiple.Some? && multiple.value <= 0.8 ==> Nearest(bps, opts.stopFrac) && IsShare(want, remaining, bps))
              && (!first && multiple.Some? && 0.8 < multiple.value <= 1.0 ==> IsShare(want, original, 3_000))
              && (!first && multiple.Some? && 1.0 < multiple.value <= 1.5 ==> IsShare(want, original, 1_750))
              && (!first && multiple.Some? && 1.5 < multiple.value <= 2.0 ==> IsShare(want, original, 400))
              && (!first && multiple.Some? && 2.0 < multiple.value ==> IsShare(want, original, 180))
              && Grants(DecideLegSizeCurve(original, remaining, multiple, first, false, opts, dust), want, remaining, dust)
  {
    var bps := if first then Bps(opts.firstFrac) else Bps(opts.stopFrac);
    BpsIsNearest(opts.firstFrac);
    BpsIsNearest(opts.stopFrac);
    ShareIsShare(original, Bps(opts.firstFrac));
    ShareIsShare(remaining, Bps(opts.stopFrac));
    ShareIsShare(original, 3_000);
    ShareIsShare(original, 1_750);
    ShareIsShare(original, 400);
    ShareIsShare(original, 180);
    hide Share, Bps, Finish, Nearest, IsShare, Grants;
    var want: nat := CurveWant(original, remaining, multiple, first, opts);
    FinishGrants(want, remaining, dust);
    assert Grants(DecideLegSizeCurve(original, remaining, multiple, first, false, opts, dust), want, remaining, dust);
  }
}
