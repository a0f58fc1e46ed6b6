/** Sizing against the expected curve state (`selection.rs`). */
module Selection {
  import opened Prelude
  import opened Arith

  const VIRT_SOL_0: nat := 30_000_000_000
  const VIRT_TOKENS_0: nat := 1_073_000_000_000_000
  const FEE_BPS: nat := 125
  const K: nat := VIRT_SOL_0 * VIRT_TOKENS_0

  function TokensAt(quote: nat): nat
    requires quote > 0
  {
    Quot(K, quote)
  }

  function ToU64(n: nat): Option<nat> { if n <= U64_MAX then Some(n) else None }

  /** The part of a budget that reaches the curve. */
  function IntoCurve(budget: nat): nat { Quot(budget * 10_000, 10_000 + FEE_BPS) }

  function TokensForBudget(quote: nat, budget: nat): Option<nat> {
    if quote == 0 || budget == 0 || IntoCurve(budget) == 0 then None
    else ToU64(SaturatingSub(TokensAt(quote), Quot(K, quote + IntoCurve(budget))))
  }

  function CostForTokens(quote: nat, tokens: nat): Option<nat>
    requires quote > 0
  {
    if tokens >= TokensAt(quote) then None
    else ToU64(SaturatingSub(Quot(K, TokensAt(quote) - tokens), quote))
  }

  /** Dividing by a quotient gives back at least the divisor, and exactly it when the next divisor has a smaller quotient. */
  lemma QuotOfQuot(n: nat, m: nat)
    requires m > 0 && Quot(n, m) > 0
    ensures Quot(n, Quot(n, m)) >= m
    ensures Quot(n, Quot(n, m)) == m <==> Quot(n, m + 1) < Quot(n, m)
  {
    hide Quot, Mul;
    var a := Quot(n, m);
    QuotBounds(n, m);
    MulCommutes(a, m);
    QuotAtLeast(n, a, m);
    MulCommutes(a, m + 1);
    QuotAtLeast(n, a, m + 1);
    QuotAtLeast(n, m + 1, a);
    QuotAntitone(n, m, m + 1);
  }

  /** Up to the square root, quotients of successive divisors differ. */
  lemma QuotsDifferUpToRoot(n: nat, m: nat)
    requires m > 0 && Mul(m, m) <= n
    ensures Quot(n, m + 1) < Quot(n, m)
  {
    hide Quot, Mul;
    var q := Quot(n, m + 1);
    QuotBounds(n, m + 1);
    QuotAtLeast(n, m, q + 1);
    MulDistributes(m, 1, q);
    MulDistributes(q, 1, m);
    MulCommutes(q, m);
    MulCommutes(q, 1);
    MulCommutes(m, 1);
    if q < m {
      QuotAtLeast(n, m, m);
    }
  }

  /** A budget's tokens never cost less than what was meant to reach the curve. */
  lemma BudgetIsNeverUndercharged(quote: nat, budget: nat)
    requires TokensForBudget(quote, budget).Some? && CostForTokens(quote, TokensForBudget(quote, budget).value).Some?
    ensures CostForTokens(quote, TokensForBudget(quote, budget).value).value >= IntoCurve(budget)
  {
    hide Quot;
    QuotAntitone(K, quote, quote + IntoCurve(budget));
    QuotOfQuot(K, quote + IntoCurve(budget));
  }

  lemma FeeArithmetic(b: nat)
    ensures var net := IntoCurve(b); var total := net + Quot(net * FEE_BPS, 10_000); total <= b <= total + 1
  {
  }

  /**
   The cost of a budget's tokens is exactly what was meant to reach the curve if and only if one more
   lamport on the curve would have left fewer tokens on it.
   */
  lemma CostIsExactIff(quote: nat, budget: nat)
    requires TokensForBudget(quote, budget).Some? && CostForTokens(quote, TokensForBudget(quote, budget).value).Some?
    ensures var after := quote + IntoCurve(budget);
            CostForTokens(quote, TokensForBudget(quote, budget).value).value == IntoCurve(budget)
            <==> Quot(K, after + 1) < Quot(K, after)
  {
    hide Quot;
    QuotAntitone(K, quote, quote + IntoCurve(budget));
    QuotOfQuot(K, quote + IntoCurve(budget));
  }

  /** Up to the square root of the invariant it always is, and with its fee it is within one lamport of the budget. */
  lemma BudgetAndCostAgree(quote: nat, budget: nat)
    requires TokensForBudget(quote, budget).Some? && CostForTokens(quote, TokensForBudget(quote, budget).value).Some?
    requires Mul(quote + IntoCurve(budget), quote + IntoCurve(budget)) <= K
    ensures var cost := CostForTokens(quote, TokensForBudget(quote, budget).value).value;
            && cost == IntoCurve(budget)
            && cost + Quot(cost * FEE_BPS, 10_000) <= budget <= cost + Quot(cost * FEE_BPS, 10_000) + 1
  {
    FeeArithmetic(budget);
    hide Quot, Mul;
    CostIsExactIff(quote, budget);
    QuotsDifferUpToRoot(K, quote + IntoCurve(budget));
  }

  lemma QuotIs(n: nat, a: nat, q: nat)
    requires a > 0 && Mul(q, a) <= n < Mul(q + 1, a)
    ensures Quot(n, a) == q
  {
    hide Mul, Quot;
    QuotAtLeast(n, a, q);
    QuotAtLeast(n, a, q + 1);
  }

  /** Beyond the square root the cost can exceed the fee-free part. */
  lemma CostCanExceedBudget()
    ensures IntoCurve(81) == 80
    ensures TokensForBudget(6_000_000_000_005, 81) == Some(72)
    ensures CostForTokens(6_000_000_000_005, 72) == Some(81)
  {
    assert IntoCurve(81) == 80;
    QuotIs(K, 6_000_000_000_005, 5_364_999_999_995);
    QuotIs(K, 6_000_000_000_085, 5_364_999_999_923);
    QuotIs(K, 5_364_999_999_923, 6_000_000_000_086);
    hide Quot;
  }

  /** When a budget buys tokens, and how many, without the division: `net` is the greatest amount that costs with its fee no more than the budget. */
  lemma TokensForBudgetAnswers(quote: nat, budget: nat, net: nat, tokens: nat)
    requires quote > 0 && (10_000 + FEE_BPS) * net <= 10_000 * budget < (10_000 + FEE_BPS) * (net + 1)
    ensures TokensForBudget(quote, budget) == Some(tokens)
       <==> net > 0 && tokens <= U64_MAX && tokens + K / (quote + net) == K / quote
  {
    assert IntoCurve(budget) == net;
    QuotAntitone(K, quote, quote + net);
  }

  /** When tokens have a cost: some must be left on the curve, and what reaches the rest must fit `u64`. */
  lemma CostForTokensAnswers(quote: nat, tokens: nat)
    requires quote > 0
    ensures CostForTokens(quote, tokens).Some?
       <==> tokens < K / quote && K / (K / quote - tokens) <= U64_MAX + quote
    ensures CostForTokens(quote, tokens).Some? ==> CostForTokens(quote, tokens).value + quote == K / (K / quote - tokens)
  {
    if tokens < K / quote {
      var left := K / quote - tokens;
      QuotAtLeast(K, quote, left);
      MulCommutes(left, quote);
      QuotAtLeast(K, left, quote);
    }
  }
}
