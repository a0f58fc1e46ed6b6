/**
 Bonding-curve pricing (`CurveParams` in `pumpfun.rs`, `sell_proceeds` in `position.rs`): constant
 product with floor division, a reserve cap and fees.  Intermediate products are `u128` in the
 source and cannot overflow; the casts back to `u64` are written out where they can lose bits.
 */
module Curve {
  import opened Prelude
  import opened Arith

  datatype CurveParams = CurveParams(
    virtualSol: nat, virtualToken: nat, realToken: nat, feeBps: nat, creatorFeeBps: nat)

  /** The live parameters of the repository's tests. */
  const LIVE: CurveParams := CurveParams(30_000_000_000, 1_073_000_000_000_000, 793_100_000_000_000, 95, 5)

  const BPS: nat := 10_000

  function TotalFeeBps(c: CurveParams): nat { c.feeBps + c.creatorFeeBps }

  function Trunc64(n: nat): nat { n % U64_SPAN }

  /** The token side of the constant product when the sol side has grown by `x`. */
  function TokensLeft(c: CurveParams, x: nat): nat
    requires c.virtualSol + x > 0
  {
    Quot(c.virtualSol * c.virtualToken, c.virtualSol + x)
  }

  /** Tokens received for `solIn` lamports on a fresh curve. */
  function InitialBuyPrice(c: CurveParams, solIn: nat): nat {
    if solIn == 0 then 0
    else Min(SaturatingSub(c.virtualToken, TokensLeft(c, solIn) + 1), c.realToken)
  }

  /** Tokens for `ourSol` of curve volume right behind `devSol` of it. */
  function TokensBehindDevBuy(c: CurveParams, devSol: nat, ourSol: nat): nat {
    SaturatingSub(InitialBuyPrice(c, SaturatingAdd(devSol, ourSol)), InitialBuyPrice(c, devSol))
  }

  // ---- buying --------------------------------------------------------------------------------

  lemma LeftAtZero(c: CurveParams)
    requires c.virtualSol > 0
    ensures TokensLeft(c, 0) == c.virtualToken && Mul(TokensLeft(c, 0), c.virtualSol) == c.virtualSol * c.virtualToken
  {
    QuotExact(c.virtualSol, c.virtualToken);
    assert Mul(c.virtualToken, c.virtualSol) == c.virtualSol * c.virtualToken;
  }

  lemma LeftAntitone(c: CurveParams, x: nat, y: nat)
    requires c.virtualSol + x > 0 && x <= y
    ensures TokensLeft(c, y) <= TokensLeft(c, x)
  {
    QuotAntitone(c.virtualSol * c.virtualToken, c.virtualSol + x, c.virtualSol + y);
  }

  /** At every depth, zero included, the price is one clamped formula. */
  lemma PriceIsClamped(c: CurveParams, x: nat)
    requires c.virtualSol > 0
    ensures InitialBuyPrice(c, x) == Max(0, Min(c.virtualToken - 1 - TokensLeft(c, x), c.realToken))
  {
    hide TokensLeft;
    LeftAtZero(c);
  }

  lemma PriceMonotone(c: CurveParams, x: nat, y: nat)
    requires x <= y
    ensures InitialBuyPrice(c, x) <= InitialBuyPrice(c, y)
  {
    hide TokensLeft;
    if x > 0 {
      LeftAntitone(c, x, y);
    }
  }

  /** Clamping keeps a bound of one: only an untouched curve is clamped from below, and there the quotient is exact. */
  lemma ClampGap(top: nat, cap: nat, a: nat, b: nat, a': nat, b': nat)
    requires top >= a >= b && a >= a' >= b' && b >= b'
    requires a' - b' <= a - b + 1 && (a == top ==> a' - b' <= a - b)
    ensures Max(0, Min(top - 1 - b', cap)) - Max(0, Min(top - 1 - a', cap))
         <= Max(0, Min(top - 1 - b, cap)) - Max(0, Min(top - 1 - a, cap)) + 1
  {
  }

  lemma LeftGap(c: CurveParams, d: nat, deeper: nat, x: nat)
    requires c.virtualSol > 0 && d <= deeper
    ensures var a, b, a', b' := TokensLeft(c, d), TokensLeft(c, d + x), TokensLeft(c, deeper), TokensLeft(c, deeper + x);
            a' - b' <= a - b + 1 && (a == c.virtualToken ==> a' - b' <= a - b)
  {
    var n := c.virtualSol * c.virtualToken;
    if TokensLeft(c, d) == c.virtualToken {
      FullOnlyAtZero(c, d);
    }
    hide Quot, Mul;
    LeftAtZero(c);
    FloorGap(n, c.virtualSol + d, c.virtualSol + deeper, x);
    if c.virtualToken == 0 {
      QuotAntitone(n, c.virtualSol, c.virtualSol + d);
      QuotAntitone(n, c.virtualSol, c.virtualSol + deeper);
    }
  }

  lemma FullOnlyAtZero(c: CurveParams, d: nat)
    requires c.virtualSol > 0 && TokensLeft(c, d) == c.virtualToken
    ensures d == 0 || c.virtualToken == 0
  {
    QuotBounds(c.virtualSol * c.virtualToken, c.virtualSol + d);
    assert Mul(c.virtualToken, c.virtualSol + d) == c.virtualSol * c.virtualToken + c.virtualToken * d;
  }

  lemma DeeperUnsaturated(c: CurveParams, d: nat, deeper: nat, x: nat)
    requires c.virtualSol > 0 && d <= deeper
    ensures InitialBuyPrice(c, deeper + x) - InitialBuyPrice(c, deeper) <= InitialBuyPrice(c, d + x) - InitialBuyPrice(c, d) + 1
  {
    hide TokensLeft, InitialBuyPrice;
    LeftGap(c, d, deeper, x);
    LeftAtZero(c);
    LeftAntitone(c, 0, d);
    LeftAntitone(c, d, d + x);
    LeftAntitone(c, d, deeper);
    LeftAntitone(c, deeper, deeper + x);
    LeftAntitone(c, d + x, deeper + x);
    PriceIsClamped(c, d);
    PriceIsClamped(c, d + x);
    PriceIsClamped(c, deeper);
    PriceIsClamped(c, deeper + x);
    ClampGap(c.virtualToken, c.realToken, TokensLeft(c, d), TokensLeft(c, d + x), TokensLeft(c, deeper), TokensLeft(c, deeper + x));
  }

  lemma FlatCurve(c: CurveParams, x: nat, y: nat)
    requires c.virtualSol == 0 && 0 < x <= y
    ensures InitialBuyPrice(c, x) == InitialBuyPrice(c, y)
  {
    assert c.virtualSol * c.virtualToken == 0;
  }

  /** Landing deeper than planned never pays more than one raw unit extra. */
  lemma DeeperPaysAtMostOneMore(c: CurveParams, d: nat, deeper: nat, ourSol: nat)
    requires d <= deeper <= U64_MAX
    ensures TokensBehindDevBuy(c, deeper, ourSol) <= TokensBehindDevBuy(c, d, ourSol) + 1
  {
    hide InitialBuyPrice;
    PriceMonotone(c, d, deeper);
    PriceMonotone(c, SaturatingAdd(deeper, ourSol), deeper + ourSol);
    PriceMonotone(c, d, SaturatingAdd(d, ourSol));
    PriceMonotone(c, SaturatingAdd(d, ourSol), SaturatingAdd(deeper, ourSol));
    if c.virtualSol > 0 {
      DeeperUnsaturated(c, d, deeper, ourSol);
    } else if deeper > 0 {
      FlatCurve(c, deeper, deeper + ourSol);
    }
  }

  /** The extra unit does occur. */
  lemma DeeperCanPayOneMore()
    ensures TokensBehindDevBuy(LIVE, 1, 1) == TokensBehindDevBuy(LIVE, 0, 1) + 1
  {
    assert InitialBuyPrice(LIVE, 1) == 35_766;
    assert InitialBuyPrice(LIVE, 2) == 71_533;
  }

  /** Splitting an inflow in two buys the same tokens, also where depths saturate. */
  lemma PurchasesTelescope(c: CurveParams, d: U64, a: U64, b: U64)
    ensures TokensBehindDevBuy(c, d, a) + TokensBehindDevBuy(c, SaturatingAdd(d, a), b)
         == TokensBehindDevBuy(c, d, SaturatingAdd(a, b))
  {
    hide InitialBuyPrice;
    PriceMonotone(c, d, SaturatingAdd(d, a));
    PriceMonotone(c, SaturatingAdd(d, a), SaturatingAdd(SaturatingAdd(d, a), b));
  }

  // ---- selling straight back -------------------------------------------------------------------

  /** Lamports out for selling `amount` tokens into the curve, fees deducted. */
  function SellProceeds(c: CurveParams, sol: nat, token: nat, amount: nat): nat {
    if amount == 0 || token == 0 || sol == 0 then 0
    else
      var gross := SaturatingSub(sol, Quot(sol * token, token + amount));
      SaturatingSub(gross, gross * TotalFeeBps(c) / BPS)
  }

  /** What selling pays, without its own formula: the curve's drop in sol at the new token side, less the fee rounded down. */
  lemma SellProceedsAreExact(c: CurveParams, sol: nat, token: nat, amount: nat)
    requires sol > 0 && token > 0 && amount > 0 && TotalFeeBps(c) <= BPS
    ensures exists gross: nat ::
              && gross <= sol && CurveDrop(sol, token, amount, gross)
              && gross * (BPS - TotalFeeBps(c)) <= BPS * SellProceeds(c, sol, token, amount) < gross * (BPS - TotalFeeBps(c)) + BPS
  {
    var n, q := sol * token, Quot(sol * token, token + amount);
    assert Mul(q, token + amount) == q * (token + amount) && Mul(q + 1, token + amount) == (q + 1) * (token + amount);
    assert Mul(sol, token + amount) == sol * token + sol * amount;
    assert Mul(sol + 1, token + amount) > n;
    hide Quot, Mul;
    QuotBounds(n, token + amount);
    MulCancel(q, sol + 1, token + amount);
    var gross: nat := sol - q;
    assert CurveDrop(sol, token, amount, gross);
    FeeTaken(gross, TotalFeeBps(c));
  }

  /** Taking `gross` off the sol side leaves the least that keeps the product within its old value. */
  predicate CurveDrop(sol: nat, token: nat, amount: nat, gross: nat) {
    gross <= sol && (sol - gross) * (token + amount) <= sol * token < (sol - gross + 1) * (token + amount)
  }

  lemma FeeTaken(gross: nat, fee: nat)
    requires fee <= BPS
    ensures gross * (BPS - fee) <= BPS * SaturatingSub(gross, gross * fee / BPS) < gross * (BPS - fee) + BPS
  {
    var n := gross * fee;
    ScaleDown(gross, fee, BPS);
    assert gross * (BPS - fee) == gross * BPS - n;
    assert n / BPS * BPS <= n < n / BPS * BPS + BPS;
  }

  /** Lamports back for buying `x` at depth `d` and selling the tokens straight back. */
  function BuyAndSellBack(c: CurveParams, d: nat, x: nat): nat {
    SellProceeds(c, c.virtualSol + d + x, SaturatingSub(c.virtualToken, InitialBuyPrice(c, d + x)), TokensBehindDevBuy(c, d, x))
  }

  /** Rounding against the buyer: the product never falls. */
  lemma ProductRises(c: CurveParams, x: nat)
    ensures InitialBuyPrice(c, x) <= c.virtualToken
    ensures InitialBuyPrice(c, x) > 0 ==> Mul(c.virtualSol + x, c.virtualToken - InitialBuyPrice(c, x)) > c.virtualSol * c.virtualToken
  {
    if InitialBuyPrice(c, x) > 0 {
      var n, i := c.virtualSol * c.virtualToken, c.virtualSol + x;
      hide Mul, Quot;
      QuotBounds(n, i);
      MulMonotone(Quot(n, i) + 1, c.virtualToken - InitialBuyPrice(c, x), i);
    }
  }

  lemma SellBackBound(c: CurveParams, sol: nat, token: nat, amount: nat, keep: nat)
    requires Mul(sol, token) >= Mul(keep, token + amount)
    ensures SellProceeds(c, sol, token, amount) <= SaturatingSub(sol, keep)
  {
    if amount > 0 && token > 0 && sol > 0 {
      assert Mul(sol, token) == sol * token;
      hide Quot, Mul;
      QuotAtLeast(sol * token, token + amount, keep);
      GrossBounds(c, SaturatingSub(sol, Quot(sol * token, token + amount)));
    }
  }

  lemma GrossBounds(c: CurveParams, gross: nat)
    ensures SaturatingSub(gross, gross * TotalFeeBps(c) / BPS) <= gross
  {
  }

  /** On a fresh curve nothing is gained by buying and selling back. */
  lemma FreshRoundTrip(c: CurveParams, x: nat)
    requires c.virtualSol + x <= U64_MAX
    ensures BuyAndSellBack(c, 0, x) <= x
  {
    hide InitialBuyPrice, SellProceeds;
    ProductRises(c, x);
    var out := InitialBuyPrice(c, x);
    assert InitialBuyPrice(c, 0) == 0 by { ZeroBuysNothing(c); }
    if out > 0 {
      assert Mul(c.virtualSol, c.virtualToken) == c.virtualSol * c.virtualToken;
      hide Mul;
      SellBackBound(c, c.virtualSol + x, c.virtualToken - out, out, c.virtualSol);
    } else {
      NothingSellsForNothing(c, c.virtualSol + x, c.virtualToken);
    }
  }

  lemma ZeroBuysNothing(c: CurveParams)
    ensures InitialBuyPrice(c, 0) == 0
  {
  }

  lemma NothingSellsForNothing(c: CurveParams, sol: nat, token: nat)
    ensures SellProceeds(c, sol, token, 0) == 0
  {
  }

  /** While the cap is not reached, the token side exceeds the exact quotient by at most one. */
  lemma TokenSideAbove(c: CurveParams, d: nat)
    requires c.virtualSol > 0 && InitialBuyPrice(c, d) < c.realToken && InitialBuyPrice(c, d) < c.virtualToken
    ensures Mul(c.virtualToken - InitialBuyPrice(c, d) - 1, c.virtualSol + d) <= c.virtualSol * c.virtualToken
  {
    var n := c.virtualSol * c.virtualToken;
    PriceIsClamped(c, d);
    hide Mul, Quot, InitialBuyPrice;
    QuotBounds(n, c.virtualSol + d);
    MulMonotone(c.virtualToken - InitialBuyPrice(c, d) - 1, TokensLeft(c, d), c.virtualSol + d);
  }

  lemma SideArithmetic(side: nat, sol: nat, g: nat, n: nat)
    requires 0 < side && sol <= Mul(g, side) && Mul(side - 1, sol) <= n
    ensures Mul(Max(sol - g, 0), side) <= n
  {
    assert (side - 1) * sol == side * sol - sol;
    assert (sol - g) * side == side * sol - g * side;
  }

  /** Tokens still on the curve at depth `d`. */
  function TokenSide(c: CurveParams, d: nat): nat { SaturatingSub(c.virtualToken, InitialBuyPrice(c, d)) }

  /** The least whole number of token sides that makes up the sol side. */
  function SidesOfSol(c: CurveParams, d: nat): (g: nat)
    requires TokenSide(c, d) > 0
  {
    Quot(c.virtualSol + d + TokenSide(c, d) - 1, TokenSide(c, d))
  }

  /**
   From any depth, buying and selling straight back gains at most as many lamports as the sol side holds
   token sides, rounded up; with no tokens left it returns nothing.
   */
  lemma RoundTripAtAnyDepth(c: CurveParams, d: nat, x: nat)
    requires c.virtualSol + d + x <= U64_MAX
    ensures TokenSide(c, d) > 0 ==> BuyAndSellBack(c, d, x) <= x + SidesOfSol(c, d)
    ensures TokenSide(c, d) == 0 || InitialBuyPrice(c, d) == c.realToken ==> BuyAndSellBack(c, d, x) == 0
  {
    hide InitialBuyPrice, SellProceeds, Mul, Quot;
    ProductRises(c, d);
    ProductRises(c, d + x);
    PriceMonotone(c, d, d + x);
    CapBinds(c, d + x);
    var before, after := InitialBuyPrice(c, d), InitialBuyPrice(c, d + x);
    var side, sol := c.virtualToken - before, c.virtualSol + d;
    if after == before {
      NothingSellsForNothing(c, sol + x, c.virtualToken - after);
    } else if c.virtualSol == 0 {
      if d > 0 {
        FlatCurve(c, d, d + x);
      } else {
        FreshRoundTrip(c, x);
      }
    } else {
      var g := SidesOfSol(c, d);
      TokenSideAbove(c, d);
      QuotBounds(sol + side - 1, side);
      MulDistributes(g, 1, side);
      MulCommutes(side, 1);
      SideArithmetic(side, sol, g, c.virtualSol * c.virtualToken);
      SellBackBound(c, sol + x, c.virtualToken - after, after - before, Max(sol - g, 0));
    }
  }

  /** While the sol side is no larger than the token side, that is at most one lamport. */
  lemma DeepRoundTrip(c: CurveParams, d: nat, x: nat)
    requires c.virtualSol + d + x <= U64_MAX && c.virtualSol + d <= TokenSide(c, d)
    ensures BuyAndSellBack(c, d, x) <= x + 1
  {
    hide BuyAndSellBack, TokenSide, Quot;
    RoundTripAtAnyDepth(c, d, x);
    var sol, side := c.virtualSol + d, TokenSide(c, d);
    if side > 0 {
      QuotBounds(sol + side - 1, side);
      if SidesOfSol(c, d) > 1 {
        MulMonotone(2, SidesOfSol(c, d), side);
        assert Mul(2, side) == 2 * side;
      }
    }
  }

  /**
   On the live curve the sol side stays the smaller one until the reserve cap binds, and from there on
   nothing more is bought: at most one lamport is gained at any depth whatsoever.
   */
  lemma LiveRoundTrip(d: nat, x: nat)
    requires LIVE.virtualSol + d + x <= U64_MAX
    ensures InitialBuyPrice(LIVE, d) < LIVE.realToken ==> LIVE.virtualSol + d <= TokenSide(LIVE, d)
    ensures BuyAndSellBack(LIVE, d, x) <= x + 1
  {
    hide BuyAndSellBack, Mul;
    RoundTripAtAnyDepth(LIVE, d, x);
    CapBinds(LIVE, d);
    if InitialBuyPrice(LIVE, d) < LIVE.realToken {
      LiveSides(d);
      DeepRoundTrip(LIVE, d, x);
    }
  }

  lemma LiveSides(d: nat)
    requires InitialBuyPrice(LIVE, d) < LIVE.realToken
    ensures LIVE.virtualSol + d <= TokenSide(LIVE, d)
  {
    var sol, side := LIVE.virtualSol + d, LIVE.virtualToken - InitialBuyPrice(LIVE, d);
    assert Mul(279_900_000_000_000, sol) == 279_900_000_000_000 * sol;
    hide InitialBuyPrice, Mul, Quot;
    TokenSideAbove(LIVE, d);
    assert side > 279_900_000_000_000;
    MulMonotone(279_900_000_000_000, side - 1, sol);
  }

  lemma CapBinds(c: CurveParams, x: nat)
    ensures InitialBuyPrice(c, x) <= c.realToken
  {
  }

  /** The extra lamport does occur, at one lamport of depth and with the live fees. */
  lemma DeepRoundTripCanGainOne()
    ensures BuyAndSellBack(LIVE, 1, 1) == 2
  {
    assert InitialBuyPrice(LIVE, 1) == 35_766;
    assert InitialBuyPrice(LIVE, 2) == 71_533;
    assert Quot(30_000_000_002 * 1_072_999_999_928_467, 1_072_999_999_964_234) == 30_000_000_000;
  }

  /** Where the sol side is the larger one, the bound at any depth is reached: here two token sides, two lamports. */
  lemma RoundTripBoundIsReached()
    ensures var c := CurveParams(2, 2, 2, 0, 0);
            c.virtualSol + 2 > TokenSide(c, 2) > 0 && SidesOfSol(c, 2) == 2 && BuyAndSellBack(c, 2, 1) == 3
  {
    var c := CurveParams(2, 2, 2, 0, 0);
    assert InitialBuyPrice(c, 2) == 0 && InitialBuyPrice(c, 3) == 1;
    assert SellProceeds(c, 5, 1, 1) == 3;
  }

  // ---- planning a buy --------------------------------------------------------------------------

  datatype BuyPlan = BuyPlan(amount: nat, maxSolCost: nat, budget: nat, expectedTokens: nat, priorFlow: nat)

  /** The part of a budget that reaches the curve once the fee is backed out. */
  function CurveSol(c: CurveParams, budget: nat): nat { Trunc64(Quot(budget * BPS, BPS + TotalFeeBps(c))) }

  function Haircut(tokens: nat, bps: nat): nat { Trunc64(Quot(tokens * (BPS - Min(bps, BPS)), BPS)) }

  function PlanBuy(c: CurveParams, devBuy: nat, budget: nat, haircutBps: nat, slippageBps: nat): BuyPlan {
    var amount := Haircut(TokensBehindDevBuy(c, devBuy, CurveSol(c, budget)), haircutBps);
    BuyPlan(amount, Trunc64(Quot(budget * (BPS + slippageBps), BPS)), budget, amount, devBuy)
  }

  function PlanExactSolIn(c: CurveParams, priorFlow: nat, budget: nat, slippageBps: nat): BuyPlan {
    var expected := TokensBehindDevBuy(c, priorFlow, CurveSol(c, budget));
    BuyPlan(budget, Haircut(expected, slippageBps), budget, expected, priorFlow)
  }

  /** Curve cost plus fees for an inflow of `x`. */
  function WithFee(c: CurveParams, x: nat): nat { Quot(x * (BPS + TotalFeeBps(c)), BPS) }

  /** `x` is the least inflow at this depth that buys `amount` tokens. */
  ghost predicate LeastInflow(c: CurveParams, devBuy: nat, amount: nat, x: nat) {
    && TokensBehindDevBuy(c, devBuy, x) >= amount
    && forall y :: 0 <= y < x ==> TokensBehindDevBuy(c, devBuy, y) < amount
  }

  /** The bisection of the repository's own check on `plan_buy`. */
  method FindLeastInflow(c: CurveParams, devBuy: nat, amount: nat, limit: nat) returns (lo: nat)
    requires TokensBehindDevBuy(c, devBuy, limit) >= amount
    ensures lo <= limit && LeastInflow(c, devBuy, amount, lo)
  {
    hide InitialBuyPrice;
    var hi := limit;
    lo := 0;
    while lo < hi
      invariant lo <= hi <= limit
      invariant TokensBehindDevBuy(c, devBuy, hi) >= amount
      invariant forall y :: 0 <= y < lo ==> TokensBehindDevBuy(c, devBuy, y) < amount
    {
      var mid := (lo + hi) / 2;
      if TokensBehindDevBuy(c, devBuy, mid) < amount {
        forall y | 0 <= y <= mid ensures TokensBehindDevBuy(c, devBuy, y) < amount {
          PriceMonotone(c, SaturatingAdd(devBuy, y), SaturatingAdd(devBuy, mid));
        }
        lo := mid + 1;
      } else {
        hi := mid;
      }
    }
  }

  lemma ScaleDown(n: nat, few: nat, many: nat)
    requires few <= many
    ensures Quot(n * few, many + 1) <= n
    ensures many > 0 ==> Quot(n * few, many) <= n
  {
    assert n * few == Mul(n, few) && n * many == Mul(many, n) == Mul(n, many);
    assert n * (many + 1) == Mul(n, many + 1);
    hide Mul, Quot;
    MulMonotone(few, many + 1, n);
    MulMonotone(few, many, n);
    MulCommutes(many, n);
    if many > 0 {
      QuotMonotone(n * few, n * many, many);
      QuotExact(many, n);
    }
    QuotMonotone(n * few, n * (many + 1), many + 1);
    QuotExact(many + 1, n);
  }

  lemma HaircutShrinks(tokens: nat, bps: nat)
    ensures Haircut(tokens, bps) <= tokens
  {
    hide Quot;
    ScaleDown(tokens, BPS - Min(bps, BPS), BPS);
  }

  /** The fee-free part of a budget, with its fee put back, fits the budget. */
  lemma CurveSolFits(c: CurveParams, budget: nat)
    requires budget <= U64_MAX
    ensures CurveSol(c, budget) <= budget && WithFee(c, CurveSol(c, budget)) <= budget
  {
    var rate := BPS + TotalFeeBps(c);
    var part := Quot(budget * BPS, rate);
    hide Quot;
    ScaleDown(budget, BPS, rate);
    QuotBounds(budget * BPS, rate);
    assert Mul(part, rate) == part * rate && Mul(budget, BPS) == budget * BPS;
    QuotMonotone(part * rate, budget * BPS, BPS);
    QuotExact(BPS, budget);
  }

  /** Whatever `plan_buy` asks for costs, at the priced depth and with fees, no more than the budget. */
  lemma PlanBuyFitsBudget(c: CurveParams, devBuy: nat, budget: U64, haircutBps: nat, slippageBps: nat, x: nat)
    requires LeastInflow(c, devBuy, PlanBuy(c, devBuy, budget, haircutBps, slippageBps).amount, x)
    ensures WithFee(c, x) <= budget
  {
    hide Quot, CurveSol, Haircut, TokensBehindDevBuy;
    var s, rate := CurveSol(c, budget), BPS + TotalFeeBps(c);
    HaircutShrinks(TokensBehindDevBuy(c, devBuy, s), haircutBps);
    CurveSolFits(c, budget);
    assert x <= s;
    ScaleUp(x, s, rate);
    QuotMonotone(x * rate, s * rate, BPS);
  }

  /** The cap before it is narrowed to `u64`: the budget and the slippage on it. */
  function WideCap(budget: nat, slippageBps: nat): (cap: nat) { Quot(budget * (BPS + slippageBps), BPS) }

  lemma WideCapIsPadded(budget: nat, slippageBps: nat)
    ensures WideCap(budget, slippageBps) == budget + Quot(budget * slippageBps, BPS)
  {
    var pad := budget * slippageBps;
    assert budget * (BPS + slippageBps) == budget * BPS + pad;
    assert (pad + budget * BPS) / BPS == pad / BPS + budget;
  }

  /**
   The cap sent covers the budget exactly when the slippage alone is worth everything that the narrowing
   drops.
   */
  lemma CapCoversBudgetExactly(c: CurveParams, devBuy: nat, budget: U64, haircutBps: nat, slippageBps: nat)
    ensures PlanBuy(c, devBuy, budget, haircutBps, slippageBps).maxSolCost >= budget
       <==> Quot(budget * slippageBps, BPS) >= WideCap(budget, slippageBps) / U64_SPAN * U64_SPAN
  {
    WideCapIsPadded(budget, slippageBps);
    hide Quot, Haircut, TokensBehindDevBuy, CurveSol;
  }

  /** Up to a slippage of 100%, it does exactly when nothing is dropped. */
  lemma CapCoversBudgetIffItFits(c: CurveParams, devBuy: nat, budget: U64, haircutBps: nat, slippageBps: nat)
    requires slippageBps <= BPS
    ensures PlanBuy(c, devBuy, budget, haircutBps, slippageBps).maxSolCost >= budget
       <==> WideCap(budget, slippageBps) <= U64_MAX
  {
    WideCapIsPadded(budget, slippageBps);
    ScaleDown(budget, slippageBps, BPS);
    hide Quot, Haircut, TokensBehindDevBuy, CurveSol;
  }

  /** Beyond 100%, a cap that wrapped can cover the budget again, or not. */
  lemma WrappedCapGoesEitherWay()
    ensures WideCap(0x8000_0000_0000_0000, 20_000) > U64_MAX
         && PlanBuy(LIVE, 0, 0x8000_0000_0000_0000, 0, 20_000).maxSolCost >= 0x8000_0000_0000_0000
    ensures WideCap(0x8000_0000_0000_0000, 10_001) > U64_MAX
         && PlanBuy(LIVE, 0, 0x8000_0000_0000_0000, 0, 10_001).maxSolCost < 0x8000_0000_0000_0000
  {
    hide InitialBuyPrice;
  }

  /** The lamports that a budget can put on the curve: those that cost with fees no more than it. */
  predicate Affordable(c: CurveParams, budget: nat, y: nat) {
    y * (BPS + TotalFeeBps(c)) <= budget * BPS
  }

  /** `amount` is what is left of `tokens` after shaving so many basis points off, rounded down. */
  predicate Shaved(amount: nat, tokens: nat, bps: nat) {
    amount * BPS <= tokens * (BPS - Min(bps, BPS)) < (amount + 1) * BPS
  }

  lemma HaircutIsShaved(tokens: nat, bps: nat)
    requires tokens <= U64_MAX
    ensures Shaved(Haircut(tokens, bps), tokens, bps)
  {
    HaircutShrinks(tokens, bps);
    var n := tokens * (BPS - Min(bps, BPS));
    ScaleDown(tokens, BPS - Min(bps, BPS), BPS);
    assert n / BPS * BPS <= n < (n / BPS + 1) * BPS;
  }

  /** The fee-free part is the greatest affordable amount. */
  lemma CurveSolIsGreatest(c: CurveParams, budget: U64, y: nat)
    ensures y <= CurveSol(c, budget) <==> Affordable(c, budget, y)
  {
    var rate := BPS + TotalFeeBps(c);
    ScaleDown(budget, BPS, rate);
    assert Mul(y, rate) == y * rate;
    hide Quot, Mul;
    QuotAtLeast(budget * BPS, rate, y);
  }

  lemma BoughtFitsU64(c: CurveParams, d: nat, x: nat)
    requires c.realToken <= U64_MAX
    ensures TokensBehindDevBuy(c, d, x) <= U64_MAX
  {
    hide InitialBuyPrice;
    CapBinds(c, SaturatingAdd(d, x));
  }

  /**
   What the greatest affordable inflow buys behind `devBuy` is `tokens`: some affordable inflow buys that, and
   none buys more.
   */
  ghost predicate BestBuy(c: CurveParams, devBuy: nat, budget: nat, tokens: nat) {
    && (exists y :: Affordable(c, budget, y) && TokensBehindDevBuy(c, devBuy, y) == tokens)
    && (forall y: nat :: Affordable(c, budget, y) ==> TokensBehindDevBuy(c, devBuy, y) <= tokens)
  }

  lemma CurveSolBuysBest(c: CurveParams, devBuy: nat, budget: U64)
    ensures BestBuy(c, devBuy, budget, TokensBehindDevBuy(c, devBuy, CurveSol(c, budget)))
  {
    hide CurveSol, InitialBuyPrice, Affordable;
    var s := CurveSol(c, budget);
    CurveSolIsGreatest(c, budget, s);
    forall y: nat | Affordable(c, budget, y) ensures TokensBehindDevBuy(c, devBuy, y) <= TokensBehindDevBuy(c, devBuy, s) {
      CurveSolIsGreatest(c, budget, y);
      PriceMonotone(c, SaturatingAdd(devBuy, y), SaturatingAdd(devBuy, s));
    }
  }

  /**
   `plan_buy`, without its own formulas: the amount is the best buy the budget affords at that depth with the
   haircut shaved off, and the cap is the budget raised by the slippage where that fits `u64`.
   */
  lemma PlanBuyIsExact(c: CurveParams, devBuy: nat, budget: U64, haircutBps: nat, slippageBps: nat)
    requires c.realToken <= U64_MAX
    ensures var plan := PlanBuy(c, devBuy, budget, haircutBps, slippageBps);
            && plan.budget == budget && plan.priorFlow == devBuy && plan.expectedTokens == plan.amount
            && (exists tokens :: BestBuy(c, devBuy, budget, tokens) && Shaved(plan.amount, tokens, haircutBps))
            && (budget * (BPS + slippageBps) < BPS * U64_SPAN ==>
                  BPS * plan.maxSolCost <= budget * (BPS + slippageBps) < BPS * (plan.maxSolCost + 1))
  {
    var tokens := TokensBehindDevBuy(c, devBuy, CurveSol(c, budget));
    BoughtFitsU64(c, devBuy, CurveSol(c, budget));
    CurveSolBuysBest(c, devBuy, budget);
    HaircutIsShaved(tokens, haircutBps);
    assert BestBuy(c, devBuy, budget, tokens) && Shaved(PlanBuy(c, devBuy, budget, haircutBps, slippageBps).amount, tokens, haircutBps);
    hide BestBuy, Shaved, Haircut, CurveSol, TokensBehindDevBuy;
    FloorOfCap(budget * (BPS + slippageBps));
  }

  lemma FloorOfCap(n: nat)
    ensures n < BPS * U64_SPAN ==> BPS * Trunc64(Quot(n, BPS)) <= n < BPS * (Trunc64(Quot(n, BPS)) + 1)
  {
  }

  /** `plan_exact_sol_in`: the whole budget goes in, and the floor is the best buy with the slippage shaved off. */
  lemma PlanExactSolInIsExact(c: CurveParams, priorFlow: nat, budget: U64, slippageBps: nat)
    requires c.realToken <= U64_MAX
    ensures var plan := PlanExactSolIn(c, priorFlow, budget, slippageBps);
            && plan.amount == plan.budget == budget && plan.priorFlow == priorFlow
            && BestBuy(c, priorFlow, budget, plan.expectedTokens)
            && Shaved(plan.maxSolCost, plan.expectedTokens, slippageBps)
  {
    BoughtFitsU64(c, priorFlow, CurveSol(c, budget));
    CurveSolBuysBest(c, priorFlow, budget);
    HaircutIsShaved(TokensBehindDevBuy(c, priorFlow, CurveSol(c, budget)), slippageBps);
  }

  lemma ScaleUp(a: nat, b: nat, s: nat)
    requires a <= b
    ensures a * s <= b * s && s * a <= s * b
  {
  }

  /** The minimum accepted by `plan_exact_sol_in` is within what the budget buys at the priced depth. */
  lemma ExactSolInFloorIsReachable(c: CurveParams, priorFlow: nat, budget: nat, slippageBps: nat)
    requires budget <= U64_MAX
    ensures var plan := PlanExactSolIn(c, priorFlow, budget, slippageBps);
            plan.maxSolCost <= TokensBehindDevBuy(c, priorFlow, CurveSol(c, budget)) && WithFee(c, CurveSol(c, budget)) <= plan.amount
  {
    hide Haircut, CurveSol, TokensBehindDevBuy, WithFee;
    HaircutShrinks(TokensBehindDevBuy(c, priorFlow, CurveSol(c, budget)), slippageBps);
    CurveSolFits(c, budget);
  }
}
