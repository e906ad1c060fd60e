/**
 * The price of a reservation: the facility's hourly rate times the tier multiplier times
 * the billed hours, rounded to whole cents.
 *
 * Rates and prices are integer cents and multipliers are tenths (0.8 is 8), so the exact
 * product is an integer number of tenths of a cent. Every multiplier is even, so that
 * product never ends in 5 and rounding it to cents never meets a tie.
 */
module Pricing {
  import opened Wrappers

  /** The tier multiplier in tenths: 0.8, 1.2, 1.8 for the three named tiers, 1 otherwise. */
  function MultiplierTenths(tier: string): (m: nat)
    ensures m % 2 == 0
    ensures m == 10 <==> tier != "explorer" && tier != "commander" && tier != "galactic-vip"
  {
    if tier == "explorer" then 8
    else if tier == "commander" then 12
    else if tier == "galactic-vip" then 18
    else 10
  }

  /** `duration || 1`: an absent or zero duration is billed as one hour. */
  function BilledHours(duration: Option<int>): (h: int)
    ensures h != 0
    ensures duration.Some? && duration.value != 0 ==> h == duration.value
  {
    match duration
    case Some(d) => if d != 0 then d else 1
    case None => 1
  }

  /** The exact price in tenths of a cent. */
  function ExactTenths(rateCents: int, tier: string, duration: Option<int>): int {
    rateCents * MultiplierTenths(tier) * BilledHours(duration)
  }

  /** Rounds an amount in tenths of a cent to the nearest cent. */
  function RoundToCents(tenths: int): int {
    (tenths + 5) / 10
  }

  lemma ExactTenthsIsEven(rateCents: int, tier: string, duration: Option<int>)
    ensures ExactTenths(rateCents, tier, duration) % 2 == 0
  {
    var m, h := MultiplierTenths(tier), BilledHours(duration);
    assert m == 2 * (m / 2);
    assert rateCents * m * h == 2 * (rateCents * (m / 2) * h);
  }

  /**
   * `(rate * multiplier * hours).toFixed(2)` in cents: strictly within half a cent of the
   * exact price, which makes it the one correctly rounded value.
   */
  function TotalCostCents(rateCents: int, tier: string, duration: Option<int>): (c: int)
    ensures -5 < 10 * c - ExactTenths(rateCents, tier, duration) < 5
  {
    var t := ExactTenths(rateCents, tier, duration);
    ExactTenthsIsEven(rateCents, tier, duration);
    assert (t + 5) % 10 != 0;
    RoundToCents(t)
  }

  /** No other whole number of cents is that close: the rounded price is unique. */
  lemma TotalCostIsTheNearestCent(rateCents: int, tier: string, duration: Option<int>, c: int)
    requires -5 < 10 * c - ExactTenths(rateCents, tier, duration) < 5
    ensures c == TotalCostCents(rateCents, tier, duration)
  {
  }

  /**
   * The price examples: 45.00 at explorer is 36.00, at commander 54.00, two hours of
   * galactic-vip 162.00, an unknown tier 45.00; a duration of -1 is billed as -36.00.
   */
  lemma PriceExamples()
    ensures TotalCostCents(4500, "explorer", Some(1)) == 3600
    ensures TotalCostCents(4500, "commander", Some(1)) == 5400
    ensures TotalCostCents(4500, "galactic-vip", Some(2)) == 16200
    ensures TotalCostCents(4500, "unknown-tier", Some(1)) == 4500
    ensures TotalCostCents(4500, "explorer", None) == TotalCostCents(4500, "explorer", Some(0)) == 3600
    ensures TotalCostCents(4500, "explorer", Some(-1)) == -3600
  {
  }
}
