/** What a mint locks: the collateral formula and the tier table of index.js, against the rules they stand for. */
module Quotes {
  import opened Common
  import opened Builders

  /** The ten lock tiers of DigiByte Core v9.26.4: the code in a mint's metadata, the id, the blocks locked and the
      collateral ratio in percent. */
  predicate CoreTier(code: nat, id: string, blocks: nat, percent: nat) {
    || (code == 0 && id == "1hour" && blocks == 240 && percent == 1000)
    || (code == 1 && id == "30days" && blocks == 172_800 && percent == 500)
    || (code == 2 && id == "3months" && blocks == 518_400 && percent == 400)
    || (code == 3 && id == "6months" && blocks == 1_036_800 && percent == 350)
    || (code == 4 && id == "1year" && blocks == 2_102_400 && percent == 300)
    || (code == 5 && id == "2years" && blocks == 4_204_800 && percent == 275)
    || (code == 6 && id == "3years" && blocks == 6_307_200 && percent == 250)
    || (code == 7 && id == "5years" && blocks == 10_512_000 && percent == 225)
    || (code == 8 && id == "7years" && blocks == 14_716_800 && percent == 212)
    || (code == 9 && id == "10years" && blocks == 21_024_000 && percent == 200)
  }

  /** q is the quotient of n and d, rounded up. */
  predicate RoundedUp(q: int, n: int, d: int) {
    (q - 1) * d < n <= q * d
  }

  /** q is the quotient of n and d, rounded down. */
  predicate RoundedDown(q: int, n: int, d: int) {
    q * d <= n < (q + 1) * d
  }

  lemma TierAt(i: nat)
    requires i < |LOCK_TIERS|
    ensures CoreTier(i, LOCK_TIERS[i].id, LOCK_TIERS[i].lockBlocks, LOCK_TIERS[i].ratioPercent)
  {
  }

  /** tierById finds Core's tier, with its code, its lock and its ratio, or there is none. */
  lemma TiersAreCores(code: nat, id: string, blocks: nat, percent: nat)
    ensures var i := TierIndex(id);
            CoreTier(code, id, blocks, percent) <==>
            i < |LOCK_TIERS| && code == i && blocks == LOCK_TIERS[i].lockBlocks && percent == LOCK_TIERS[i].ratioPercent
  {
    var i := TierIndex(id);
    if i < |LOCK_TIERS| {
      TierAt(i);
    }
  }

  /** An unknown tier, no DigiDollar and no price are refused. Otherwise the ratio is the tier's times the multiplier,
      rounded up; the base is worth that percentage of the DigiDollar at the price, rounded up to a satoshi; one
      percent comes on top, rounded down; and the result is refused exactly beyond all the money there is. */
  lemma CollateralIsExact(ddCents: int, tierId: string, price: int, bps: nat, code: nat, blocks: nat, percent: nat)
    returns (ratio: int, base: int, total: int)
    requires CoreTier(code, tierId, blocks, percent) && ddCents > 0 && price > 0
    ensures RoundedUp(ratio, percent * bps, 10_000)
    ensures RoundedUp(base, ddCents * 100_000_000 * 100 * ratio, price)
    ensures RoundedDown(total, 101 * base, 100)
    ensures RequiredCollateralSats(ddCents, tierId, price, bps) ==
            if total > 2_100_000_000_000_000_000 then Err("required collateral exceeds MAX_MONEY") else Ok(total)
  {
    TiersAreCores(code, tierId, blocks, percent);
    ProductNotNegative(percent, bps);
    CeilDivLeast(percent * bps, DCA_BPS_SCALE);
    ratio := EffectiveRatioPercent(percent, bps);
    ProductNotNegative(ddCents * COIN, ratio);
    Reordered(ddCents, ratio);
    CeilDivLeast(ddCents * COIN * ratio * 100, price);
    base := BaseSats(ddCents, ratio, price);
    NotNegative(base, price);
    total := TruncDiv(base * 101, 100);
  }

  lemma ProductNotNegative(a: int, b: int)
    requires a >= 0 && b >= 0
    ensures a * b >= 0
  {
  }

  lemma Reordered(cents: int, ratio: int)
    ensures cents * COIN * ratio * 100 == cents * 100_000_000 * 100 * ratio
  {
  }

  lemma NotNegative(q: int, d: int)
    requires d > 0 && q * d >= 0
    ensures q >= 0
  {
  }

  lemma CollateralRefuses(ddCents: int, tierId: string, price: int, bps: int)
    requires (forall code, blocks, percent :: !CoreTier(code, tierId, blocks, percent)) || ddCents <= 0 || price <= 0
    ensures RequiredCollateralSats(ddCents, tierId, price, bps).Err?
  {
    var i := TierIndex(tierId);
    if i < |LOCK_TIERS| {
      TiersAreCores(i, tierId, LOCK_TIERS[i].lockBlocks, LOCK_TIERS[i].ratioPercent);
    }
  }

  /** A negative multiplier asks for nothing. */
  lemma NegativeMultiplier(ddCents: int, tierId: string, price: int, bps: int, code: nat, blocks: nat, percent: nat)
    requires CoreTier(code, tierId, blocks, percent) && ddCents > 0 && price > 0 && bps < 0
    ensures RequiredCollateralSats(ddCents, tierId, price, bps).Ok?
    ensures RequiredCollateralSats(ddCents, tierId, price, bps).value <= 0
  {
    TiersAreCores(code, tierId, blocks, percent);
    ProductNotNegative(percent, -bps);
    assert percent * bps == -(percent * -bps);
    CeilOfNegative(percent * bps, DCA_BPS_SCALE);
    var ratio := EffectiveRatioPercent(percent, bps);
    ProductNotNegative(ddCents * COIN, -ratio);
    assert ddCents * COIN * ratio == -(ddCents * COIN * -ratio);
    CeilOfNegative(ddCents * COIN * ratio * 100, price);
  }

  lemma CeilOfNegative(n: int, d: int)
    requires n <= 0 && d > 0
    ensures CeilDiv(n, d) <= 0
  {
  }

  /** Two quotes of the library's own tests: $100 on the one-hour tier and, at an emergency multiplier, on the
      six-month tier, at $0.00631. */
  lemma KnownQuotes()
    ensures RequiredCollateralSats(10_000, "1hour", 6_310, 10_000) == Ok(16_006_339_144_216)
    ensures RequiredCollateralSats(10_000, "6months", 6_310, 20_000) == Ok(11_204_437_400_951)
  {
    TiersAreCores(0, "1hour", 240, 1000);
    assert BaseSats(10_000, EffectiveRatioPercent(1000, 10_000), 6_310) == 15_847_860_538_828;
    TiersAreCores(3, "6months", 1_036_800, 350);
    assert BaseSats(10_000, EffectiveRatioPercent(350, 20_000), 6_310) == 11_093_502_377_180;
  }
}
