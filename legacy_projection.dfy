/** The older, calendar-agnostic cost projector, `calculateCosts` in
    src/components/ResultsSection.js: every total is prorated by the
    lease's length in years (`duration / 12`), and the kilometre overage
    is settled lease year by lease year, the last year possibly partial. */
module LegacyProjection {
  import opened Wrappers
  import opened Coercion
  import opened Shares
  import CalendarProjection
  import CalendarProperties
  import InsuranceProration

  /** The object `calculateCosts` returns. `effectiveMonthly` is `None`
      where the code divides by a zero duration (JavaScript's NaN). */
  datatype LegacyCosts = LegacyCosts(
    totalLeasing: real,
    extraKmCosts: real,
    taxReturnAmount: real,
    effectiveTotal: real,
    effectiveMonthly: Option<real>,
    duration: int,
    oneTime: real,
    monthly: real,
    totalOfficeKm: real,
    totalTaxOfficeKm: real,
    totalFixedKm: real,
    totalIncludedKm: real,
    extraKm: real,
    yearlyTaxOfficeKm: real,
    yearlyTaxReturn: real,
    energyCostPerKm: real,
    totalEnergyCost: real,
    totalOfficeEnergyCost: real,
    totalFixedEnergyCost: real,
    totalInsuranceCost: real)

  /** The lease's length in years, `duration / 12`, not rounded. */
  function Years(p: Params): real
  {
    p.duration as real / 12.0
  }

  /** Round-trip office kilometres driven per year (`days`). */
  function YearlyOfficeKm(p: Params): real
  {
    p.officeKm * 2.0 * p.officeDays as real
  }

  /** Round-trip office kilometres claimed for tax per year (`taxDays`). */
  function YearlyTaxOfficeKm(p: Params): real
  {
    p.officeKm * 2.0 * p.taxOfficeDays as real
  }

  function TotalFixedKm(p: Params): real
  {
    p.fixedKm as real * Years(p)
  }

  function TotalOfficeKm(p: Params): real
  {
    YearlyOfficeKm(p) * Years(p) + TotalFixedKm(p)
  }

  function TotalTaxOfficeKm(p: Params): real
  {
    YearlyTaxOfficeKm(p) * Years(p)
  }

  function TotalOfficeEnergyCost(p: Params): real
  {
    YearlyOfficeKm(p) * Years(p) * CalendarProjection.EnergyCostPerKm(p)
  }

  function TotalFixedEnergyCost(p: Params): real
  {
    TotalFixedKm(p) * CalendarProjection.EnergyCostPerKm(p)
  }

  function TotalInsuranceCost(p: Params): real
  {
    p.insuranceCost * Years(p)
  }

  function TotalLeasing(p: Params): real
  {
    p.oneTime + p.duration as real * p.monthly
  }

  function TaxReturnAmount(p: Params): real
  {
    TotalTaxOfficeKm(p) * p.taxReturn
  }

  // ---------------------------------------------------------------------
  // The year-by-year overage

  /** `Math.ceil(duration / 12)`: the number of lease years. */
  function LeasingYears(p: Params): int
  {
    Ceil12(p.duration)
  }

  /** `Math.min(12, duration - year * 12)`: the months of lease year `year`. */
  function MonthsInYear(d: int, year: int): int
  {
    if 12 <= d - year * 12 then 12 else d - year * 12
  }

  /** The kilometres of lease year `year` above its allowance, the
      distance driven and the allowance both prorated by the year's months. */
  function YearExtraKm(p: Params, year: int): real
  {
    ProratedOverage(p, MonthsInYear(p.duration, year))
  }

  /** The overage of a lease year of `months` months: the yearly distance
      and allowance both prorated by `months / 12`. */
  function ProratedOverage(p: Params, months: int): real
  {
    var share := months as real / 12.0;
    var driven := YearlyOfficeKm(p) * share + p.fixedKm as real * share;
    var included := p.included as real * share;
    CalendarProjection.Max(0.0, driven - included)
  }

  /** Overage of the lease years `0 .. n - 1`. */
  function ExtraKmOverYears(p: Params, n: int): real
    decreases n
  {
    if n <= 0 then 0.0 else ExtraKmOverYears(p, n - 1) + YearExtraKm(p, n - 1)
  }

  /** Overage charges of the lease years `0 .. n - 1`, each year's overage
      priced separately. */
  function ExtraKmCostOverYears(p: Params, n: int): real
    decreases n
  {
    if n <= 0 then 0.0 else ExtraKmCostOverYears(p, n - 1) + YearExtraKm(p, n - 1) * p.extraCost
  }

  /** The returned object, given the accumulated overage and its cost. */
  function Assemble(p: Params, extraKm: real, extraKmCosts: real): LegacyCosts
  {
    var effectiveTotal := TotalLeasing(p) + extraKmCosts
      + (TotalOfficeEnergyCost(p) + TotalFixedEnergyCost(p))
      + TotalInsuranceCost(p) - TaxReturnAmount(p);
    LegacyCosts(
      totalLeasing := TotalLeasing(p),
      extraKmCosts := extraKmCosts,
      taxReturnAmount := TaxReturnAmount(p),
      effectiveTotal := effectiveTotal,
      effectiveMonthly := if p.duration == 0 then None else Some(effectiveTotal / p.duration as real),
      duration := p.duration,
      oneTime := p.oneTime,
      monthly := p.monthly,
      totalOfficeKm := TotalOfficeKm(p),
      totalTaxOfficeKm := TotalTaxOfficeKm(p),
      totalFixedKm := TotalFixedKm(p),
      totalIncludedKm := p.included as real * Years(p),
      extraKm := extraKm,
      yearlyTaxOfficeKm := YearlyTaxOfficeKm(p),
      yearlyTaxReturn := YearlyTaxOfficeKm(p) * p.taxReturn,
      energyCostPerKm := CalendarProjection.EnergyCostPerKm(p),
      totalEnergyCost := TotalOfficeEnergyCost(p) + TotalFixedEnergyCost(p),
      totalOfficeEnergyCost := TotalOfficeEnergyCost(p),
      totalFixedEnergyCost := TotalFixedEnergyCost(p),
      totalInsuranceCost := TotalInsuranceCost(p))
  }

  /** What `calculateCosts` returns, as a function of the coerced parameters. */
  function LegacyProjection(p: Params): LegacyCosts
  {
    Assemble(p, ExtraKmOverYears(p, LeasingYears(p)), ExtraKmCostOverYears(p, LeasingYears(p)))
  }

  /** `calculateCosts`: the prorated totals, and the loop over the lease
      years that accumulates the overage and its cost. */
  method CalculateCosts(p: Params) returns (c: LegacyCosts)
    ensures c == LegacyProjection(p)
  {
    var leasingYears := Ceil12(p.duration);
    var totalExtraKm := 0.0;
    var totalExtraKmCosts := 0.0;
    var year := 0;
    while year < leasingYears
      invariant 0 <= year && (year <= leasingYears || year == 0)
      invariant totalExtraKm == ExtraKmOverYears(p, year)
      invariant totalExtraKmCosts == ExtraKmCostOverYears(p, year)
    {
      var monthsInYear := MonthsInYear(p.duration, year);
      var kmDrivenThisYear := YearlyOfficeKm(p) * (monthsInYear as real / 12.0)
        + p.fixedKm as real * (monthsInYear as real / 12.0);
      var includedKmThisYear := p.included as real * (monthsInYear as real / 12.0);
      var extraKmThisYear := CalendarProjection.Max(0.0, kmDrivenThisYear - includedKmThisYear);
      ProratedStep(p, monthsInYear, kmDrivenThisYear, includedKmThisYear, extraKmThisYear);
      EqualTimes(extraKmThisYear, YearExtraKm(p, year), p.extraCost);
      totalExtraKm := totalExtraKm + extraKmThisYear;
      totalExtraKmCosts := totalExtraKmCosts + extraKmThisYear * p.extraCost;
      year := year + 1;
    }
    c := Assemble(p, totalExtraKm, totalExtraKmCosts);
  }

  /** One pass of the year loop computes the year's prorated overage. */
  lemma ProratedStep(p: Params, months: int, driven: real, included: real, extra: real)
    requires driven == YearlyOfficeKm(p) * (months as real / 12.0) + p.fixedKm as real * (months as real / 12.0)
    requires included == p.included as real * (months as real / 12.0)
    requires extra == CalendarProjection.Max(0.0, driven - included)
    ensures extra == ProratedOverage(p, months)
  {
  }

  // ---------------------------------------------------------------------
  // Properties

  /** The leasing total is the down payment plus every monthly rate; the
      effective total adds overage, energy and insurance and deducts the
      tax refund; the effective monthly cost spreads it over the months,
      and is undefined for a zero duration. */
  lemma Totals(p: Params)
    ensures var c := LegacyProjection(p);
      && c.totalLeasing == p.oneTime + p.duration as real * p.monthly
      && c.effectiveTotal == c.totalLeasing + c.extraKmCosts + c.totalEnergyCost + c.totalInsuranceCost - c.taxReturnAmount
      && c.totalEnergyCost == c.totalOfficeEnergyCost + c.totalFixedEnergyCost
      && (c.effectiveMonthly.Some? <==> p.duration != 0)
      && (c.effectiveMonthly.Some? ==> c.effectiveMonthly.value * p.duration as real == c.effectiveTotal)
  {
    AssembledTotals(p, ExtraKmOverYears(p, LeasingYears(p)), ExtraKmCostOverYears(p, LeasingYears(p)));
  }

  /** `Totals`, whatever overage the year loop accumulated. */
  lemma AssembledTotals(p: Params, extraKm: real, extraKmCosts: real)
    ensures var c := Assemble(p, extraKm, extraKmCosts);
      && c.totalLeasing == p.oneTime + p.duration as real * p.monthly
      && c.effectiveTotal == c.totalLeasing + c.extraKmCosts + c.totalEnergyCost + c.totalInsuranceCost - c.taxReturnAmount
      && c.totalEnergyCost == c.totalOfficeEnergyCost + c.totalFixedEnergyCost
      && (c.effectiveMonthly.Some? <==> p.duration != 0)
      && (c.effectiveMonthly.Some? ==> c.effectiveMonthly.value * p.duration as real == c.effectiveTotal)
  {
    if p.duration != 0 {
      CalendarProperties.DividedBack(Assemble(p, extraKm, extraKmCosts).effectiveTotal, p.duration as real);
    }
  }

  /** The tax kilometres count the office trips on the tax days only and
      leave out the private kilometres, while the driven kilometres count
      the office trips on the office days plus the private kilometres. */
  lemma KmAxes(p: Params)
    ensures var c := LegacyProjection(p);
      && c.totalTaxOfficeKm == p.officeKm * 2.0 * p.taxOfficeDays as real * Years(p)
      && c.totalOfficeKm == (p.officeKm * 2.0 * p.officeDays as real + p.fixedKm as real) * Years(p)
      && c.totalTaxOfficeKm == LegacyProjection(p.(officeDays := 0, fixedKm := 0)).totalTaxOfficeKm
      && (p.officeDays == p.taxOfficeDays ==> c.totalOfficeKm == c.totalTaxOfficeKm + c.totalFixedKm)
  {
    var q := p.(officeDays := 0, fixedKm := 0);
    AssembledKmAxes(p, ExtraKmOverYears(p, LeasingYears(p)), ExtraKmCostOverYears(p, LeasingYears(p)),
      ExtraKmOverYears(q, LeasingYears(q)), ExtraKmCostOverYears(q, LeasingYears(q)));
  }

  /** `KmAxes`, whatever overage the year loop accumulated. */
  lemma AssembledKmAxes(p: Params, extraKm: real, extraKmCosts: real, otherExtraKm: real, otherExtraKmCosts: real)
    ensures var c := Assemble(p, extraKm, extraKmCosts);
      && c.totalTaxOfficeKm == p.officeKm * 2.0 * p.taxOfficeDays as real * Years(p)
      && c.totalOfficeKm == (p.officeKm * 2.0 * p.officeDays as real + p.fixedKm as real) * Years(p)
      && c.totalTaxOfficeKm
         == Assemble(p.(officeDays := 0, fixedKm := 0), otherExtraKm, otherExtraKmCosts).totalTaxOfficeKm
      && (p.officeDays == p.taxOfficeDays ==> c.totalOfficeKm == c.totalTaxOfficeKm + c.totalFixedKm)
  {
    assert (YearlyOfficeKm(p) + p.fixedKm as real) * Years(p) == YearlyOfficeKm(p) * Years(p) + TotalFixedKm(p);
    if p.officeDays == p.taxOfficeDays {
      assert YearlyOfficeKm(p) == YearlyTaxOfficeKm(p);
    }
  }

  /** `MonthsInYear` summed over lease years `0 .. n - 1`. */
  function MonthsOverYears(d: int, n: int): int
    decreases n
  {
    if n <= 0 then 0 else MonthsOverYears(d, n - 1) + MonthsInYear(d, n - 1)
  }

  lemma {:induction false} MonthsPrefix(d: int, n: int)
    requires 0 <= d && 0 <= n <= Ceil12(d)
    ensures MonthsOverYears(d, n) == if 12 * n <= d then 12 * n else d
  {
    if n > 0 {
      MonthsPrefix(d, n - 1);
      assert 12 * (n - 1) < d;
      assert MonthsInYear(d, n - 1) == if 12 <= d - 12 * (n - 1) then 12 else d - 12 * (n - 1);
    }
  }

  /** A positive duration splits into `ceil(duration / 12)` lease years of
      1 to 12 months each, all but the last of 12, and together they
      account for every month of the lease. */
  lemma YearSplit(d: int)
    requires 1 <= d
    ensures 12 * (Ceil12(d) - 1) < d <= 12 * Ceil12(d)
    ensures forall year :: 0 <= year < Ceil12(d) ==> 1 <= MonthsInYear(d, year) <= 12
    ensures forall year :: 0 <= year < Ceil12(d) - 1 ==> MonthsInYear(d, year) == 12
    ensures MonthsOverYears(d, Ceil12(d)) == d
  {
    MonthsPrefix(d, Ceil12(d));
  }

  /** A duration of zero or less has no lease years and no overage. */
  lemma NoYearsNoOverage(p: Params)
    requires p.duration <= 0
    ensures LeasingYears(p) <= 0
    ensures LegacyProjection(p).extraKm == 0.0 && LegacyProjection(p).extraKmCosts == 0.0
  {
  }

  /** No lease year's overage is negative, so neither is their sum. */
  lemma {:induction false} OverageNonNegative(p: Params, n: int)
    ensures forall year :: 0 <= year < n ==> YearExtraKm(p, year) >= 0.0
    ensures ExtraKmOverYears(p, n) >= 0.0
  {
    if n > 0 {
      OverageNonNegative(p, n - 1);
    }
  }

  /** Pricing each year's overage separately costs the same as pricing
      the total overage. */
  lemma {:induction false} OverageCost(p: Params, n: int)
    ensures ExtraKmCostOverYears(p, n) == ExtraKmOverYears(p, n) * p.extraCost
  {
    if n > 0 {
      var k := n - 1;
      OverageCost(p, k);
      AddAtRate(ExtraKmOverYears(p, k), YearExtraKm(p, k), ExtraKmOverYears(p, n), p.extraCost);
    } else {
      AddAtRate(0.0, 0.0, ExtraKmOverYears(p, n), p.extraCost);
    }
  }

  /** `calculateCosts` reports the overage and overage cost of all its
      lease years, and the premium prorated by the lease's years. */
  lemma AccumulatedFields(p: Params)
    ensures LegacyProjection(p).extraKm == ExtraKmOverYears(p, LeasingYears(p))
    ensures LegacyProjection(p).extraKmCosts == ExtraKmCostOverYears(p, LeasingYears(p))
    ensures LegacyProjection(p).totalInsuranceCost == TotalInsuranceCost(p)
  {
  }

  /** The overage of a full year at the yearly distance and allowance. */
  function FullYearOverage(p: Params): real
  {
    CalendarProjection.Max(0.0, YearlyOfficeKm(p) + p.fixedKm as real - p.included as real)
  }

  /** Scaling a difference by a positive share scales its positive part. */
  lemma PositivePartScales(share: real, x: real)
    requires share > 0.0
    ensures CalendarProjection.Max(0.0, share * x) == share * CalendarProjection.Max(0.0, x)
  {
    if x >= 0.0 {
      assert share * x >= 0.0;
    } else {
      assert share * x < 0.0;
    }
  }

  /** The overage of prorated distance `driven` and allowance `included`,
      both scaled by `share`, is `share` times the unscaled overage `full`. */
  lemma ScaledOverage(driven: real, included: real, share: real, full: real)
    requires share > 0.0 && full == CalendarProjection.Max(0.0, driven - included)
    ensures CalendarProjection.Max(0.0, driven * share - included * share) == share * full
  {
    assert driven * share - included * share == share * (driven - included);
    PositivePartScales(share, driven - included);
  }

  /** The yearly distance is the office round trips plus the fixed
      private kilometres, whichever way the product is written. */
  lemma YearlyDistance(p: Params)
    ensures CalendarProjection.TotalKmPerYear(p) == YearlyOfficeKm(p) + p.fixedKm as real
  {
  }

  /** A lease year's overage is one twelfth of a full year's overage per
      month of the year. */
  lemma YearOverageIsShare(p: Params, year: int)
    requires 1 <= MonthsInYear(p.duration, year)
    ensures YearExtraKm(p, year) == Times(FullYearOverage(p) / 12.0, MonthsInYear(p.duration, year))
  {
    YearlyDistance(p);
    ScaledOverage(YearlyOfficeKm(p) + p.fixedKm as real, p.included as real,
      MonthsInYear(p.duration, year) as real / 12.0, FullYearOverage(p));
    assert YearlyOfficeKm(p) * (MonthsInYear(p.duration, year) as real / 12.0)
        + p.fixedKm as real * (MonthsInYear(p.duration, year) as real / 12.0)
      == (YearlyOfficeKm(p) + p.fixedKm as real) * (MonthsInYear(p.duration, year) as real / 12.0);
    TwelfthsOfFull(FullYearOverage(p), MonthsInYear(p.duration, year),
      MonthsInYear(p.duration, year) as real / 12.0, Times(FullYearOverage(p) / 12.0, MonthsInYear(p.duration, year)));
  }

  /** `months` twelfths of `full`, counted as shares or as a product. */
  lemma TwelfthsOfFull(full: real, months: int, share: real, x: real)
    requires 0 <= months && share == months as real / 12.0 && x == Times(full / 12.0, months)
    ensures x == share * full
  {
    TimesIsProduct(full / 12.0, months);
  }

  lemma {:induction false} OverageOverYearsIsShare(p: Params, n: int)
    requires 0 <= n <= Ceil12(p.duration)
    ensures ExtraKmOverYears(p, n) == Times(FullYearOverage(p) / 12.0, MonthsOverYears(p.duration, n))
  {
    if n > 0 {
      var k := n - 1;
      OverageOverYearsIsShare(p, k);
      YearOverageIsShare(p, k);
      MonthsPrefix(p.duration, k);
      TimesAdd(FullYearOverage(p) / 12.0, MonthsOverYears(p.duration, k), MonthsInYear(p.duration, k));
    }
  }

  /** Over all lease years the loop charges a twelfth of a full year's
      overage per lease month. */
  lemma YearsOverageInTwelfths(p: Params)
    requires 1 <= p.duration
    ensures ExtraKmOverYears(p, LeasingYears(p)) == Times(FullYearOverage(p) / 12.0, p.duration)
  {
    YearSplit(p.duration);
    OverageOverYearsIsShare(p, LeasingYears(p));
  }

  /** The overage of all lease years is the term's share of a full year's
      overage. */
  lemma YearsOverageAsShare(p: Params)
    requires 1 <= p.duration
    ensures ExtraKmOverYears(p, LeasingYears(p)) == CalendarProjection.DurationInYears(p) * FullYearOverage(p)
  {
    YearsOverageInTwelfths(p);
    TwelfthsOfFull(FullYearOverage(p), p.duration, CalendarProjection.DurationInYears(p), ExtraKmOverYears(p, LeasingYears(p)));
  }

  /** The calendar-aware projector's overage over the term is the term's
      share of a full year's overage. */
  lemma TermOverageAsShare(p: Params)
    requires 1 <= p.duration
    ensures CalendarProjection.ExtraKm(p) == CalendarProjection.DurationInYears(p) * FullYearOverage(p)
  {
    YearlyDistance(p);
    ScaledOverage(CalendarProjection.TotalKmPerYear(p), p.included as real,
      CalendarProjection.DurationInYears(p), FullYearOverage(p));
  }

  /** Settling the overage year by year, with distance and allowance both
      prorated, gives the same kilometres and the same charge as the
      calendar-aware projector's single settlement over the whole term. */
  lemma YearlyOverageEqualsTermOverage(p: Params)
    requires 1 <= p.duration
    ensures ExtraKmOverYears(p, LeasingYears(p)) == CalendarProjection.ExtraKm(p)
    ensures ExtraKmCostOverYears(p, LeasingYears(p)) == CalendarProjection.ExtraKmCost(p)
  {
    YearsOverageAsShare(p);
    TermOverageAsShare(p);
    EqualTimes(ExtraKmOverYears(p, LeasingYears(p)), CalendarProjection.ExtraKm(p), p.extraCost);
    OverageCost(p, LeasingYears(p));
  }

  /** The prorated totals agree with the calendar-aware projector's: the
      leasing cost, the driven and tax kilometres, the tax refund and the
      energy cost. */
  lemma AgreesWithCalendarProjector(p: Params)
    ensures var c := LegacyProjection(p);
      && c.totalLeasing == CalendarProjection.LeasingCost(p)
      && c.totalOfficeKm == CalendarProjection.TotalKmLeasingPeriod(p)
      && c.taxReturnAmount == CalendarProjection.TotalTaxReturn(p)
      && c.totalEnergyCost == CalendarProjection.TotalEnergyCost(p)
  {
    var y := Years(p);
    var e := CalendarProjection.EnergyCostPerKm(p);
    assert TotalOfficeKm(p) == (YearlyOfficeKm(p) + p.fixedKm as real) * y;
    assert YearlyOfficeKm(p) * y * e + p.fixedKm as real * y * e == (YearlyOfficeKm(p) + p.fixedKm as real) * y * e;
  }

  /** The prorated insurance, `duration / 12` premiums, is what the
      corrected calendar-aware rule charges for a lease that crosses a
      year end: one twelfth of the premium per leased month. */
  lemma InsuranceAgreesWithIntendedProration(p: Params)
    requires 1 <= p.startMonth <= 12 && 1 <= p.duration
    requires p.startMonth - 1 + p.duration > 12
    ensures TotalInsuranceCost(p) == InsuranceProration.IntendedInsuranceUpTo(p, p.duration)
  {
    InsuranceProration.IntendedInsuranceCrossingYearEnd(p);
    PremiumInTwelfths(p, InsuranceProration.IntendedInsuranceUpTo(p, p.duration));
  }

  /** `duration` twelfths of the premium, paid one twelfth at a time, are
      the prorated insurance cost. */
  lemma PremiumInTwelfths(p: Params, x: real)
    requires 0 <= p.duration && x == Times(p.insuranceCost / 12.0, p.duration)
    ensures x == TotalInsuranceCost(p)
  {
    SharesOfPremium(x, p.insuranceCost, p.duration, Years(p));
  }

  /** `months` twelfths of a premium, paid one twelfth at a time, are the
      premium times the `years` those months make. */
  lemma SharesOfPremium(x: real, premium: real, months: int, years: real)
    requires 0 <= months && x == Times(premium / 12.0, months)
    requires years == months as real / 12.0
    ensures x == premium * years
  {
    TimesIsProduct(premium / 12.0, months);
  }

  /** With the default distances and allowance the lease has three full
      years, each 29360 km driven against 15000 included. */
  lemma DefaultsExample(p: Params)
    requires p.duration == 36 && p.included == 15000 && p.officeKm == 88.0
    requires p.officeDays == 110 && p.fixedKm == 10000
    ensures LeasingYears(p) == 3
    ensures LegacyProjection(p).extraKm == 43080.0
  {
    YearSplit(36);
    assert YearlyOfficeKm(p) == 19360.0;
    assert YearExtraKm(p, 0) == 14360.0;
    assert YearExtraKm(p, 1) == 14360.0;
    assert YearExtraKm(p, 2) == 14360.0;
  }
}
