/**
 * The pricing page: the three plans and the price each card shows, per month or billed
 * annually. Amounts are whole rupees.
 */
module Pricing {
  import opened Outcomes

  datatype Plan = Plan(name: string, description: string, monthlyPrice: nat, annualPrice: nat, popular: bool)

  /** `plans`, in card order; the feature lists are display text and are not modelled. */
  function Plans(): seq<Plan> {
    [ Plan("Starter", "Perfect for individuals and small businesses", 999, 9990, false),
      Plan("Professional", "Ideal for growing businesses", 2499, 24990, true),
      Plan("Enterprise", "For large organizations", 4999, 49990, false) ]
  }

  /** What a card shows: the figure before `/month`, and the annual total under it in annual mode. */
  datatype PriceDisplay = PriceDisplay(perMonth: nat, billedAnnually: Option<nat>)

  /**
   * Monthly mode shows the monthly price; annual mode shows the annual price divided by 12
   * and rounded down, with the full annual price under it.
   */
  function Display(plan: Plan, isAnnual: bool): (d: PriceDisplay)
    ensures !isAnnual ==> d.perMonth == plan.monthlyPrice && d.billedAnnually == None
    ensures isAnnual ==> d.billedAnnually == Some(plan.annualPrice)
    ensures isAnnual ==> d.perMonth * 12 <= plan.annualPrice < (d.perMonth + 1) * 12
  {
    if isAnnual then PriceDisplay(plan.annualPrice / 12, Some(plan.annualPrice))
    else PriceDisplay(plan.monthlyPrice, None)
  }

  /** Every plan's annual price is ten monthly payments. */
  lemma AnnualIsTenMonths()
    ensures forall p :: p in Plans() ==> p.annualPrice == 10 * p.monthlyPrice && p.monthlyPrice > 120
  {
  }

  /** Exactly one plan is marked popular: the second. */
  lemma ExactlyOnePopular()
    ensures Plans()[1].popular
    ensures forall i :: 0 <= i < |Plans()| && Plans()[i].popular ==> i == 1
  {
  }

  /**
   * `Math.round(percent)` is 17 exactly when the percentage lies in [16.5, 17.5); for the
   * share `num / den` that is `33 * den <= 200 * num < 35 * den`.
   */
  predicate RoundsTo17Percent(num: nat, den: nat) {
    33 * den <= 200 * num < 35 * den
  }

  /**
   * When the annual price is ten months, the annual-mode figure is below the monthly price;
   * the year costs 17% less than twelve months, after rounding; and, for a monthly price above
   * 120, the rounded-down figure the card shows is also 17% below the monthly price.
   */
  lemma AnnualSavesSeventeenPercent(plan: Plan)
    requires plan.annualPrice == 10 * plan.monthlyPrice && plan.monthlyPrice > 120
    ensures Display(plan, true).perMonth < plan.monthlyPrice
    ensures RoundsTo17Percent(plan.monthlyPrice - Display(plan, true).perMonth, plan.monthlyPrice)
    ensures RoundsTo17Percent(12 * plan.monthlyPrice - plan.annualPrice, 12 * plan.monthlyPrice)
  {
    var m := plan.monthlyPrice;
    var q := Display(plan, true).perMonth;
    assert q * 12 <= 10 * m < (q + 1) * 12;
    assert 12 * (m - q) >= 2 * m;
    assert 12 * (m - q) < 2 * m + 12;
    calc {
      200 * (m - q) * 6;
    ==
      100 * (12 * (m - q));
    >=
      100 * (2 * m);
    ==
      33 * m * 6 + 2 * m;
    }
    calc {
      200 * (m - q) * 6;
    ==
      100 * (12 * (m - q));
    <
      100 * (2 * m + 12);
    ==
      35 * m * 6 - 10 * m + 1200;
    <
      35 * m * 6;
    }
  }

  /** Every card in annual mode therefore shows a lower monthly figure and a 17% saving. */
  lemma EveryPlanSaves(i: nat)
    requires i < |Plans()|
    ensures Display(Plans()[i], true).perMonth < Plans()[i].monthlyPrice
    ensures RoundsTo17Percent(Plans()[i].monthlyPrice - Display(Plans()[i], true).perMonth, Plans()[i].monthlyPrice)
  {
    AnnualIsTenMonths();
    assert Plans()[i] in Plans();
    AnnualSavesSeventeenPercent(Plans()[i]);
  }

  /** Switching the toggle never changes the annual total a plan costs. */
  lemma ToggleKeepsTotal(plan: Plan)
    ensures Display(plan, true).billedAnnually == Some(plan.annualPrice)
    ensures Display(plan, false).billedAnnually == None
  {
  }
}
