/** The calendar-aware cost projector, `calculateCosts` in
    src/components/ResultsSection.jsx: aggregate totals over the lease term
    plus a month-by-month breakdown that runs one month past the term, with
    each month resolved to a calendar month and year so that insurance is
    charged in January, the tax refund arrives in March and the extra-km
    charge falls in December or in the final lease month.

    Money and kilometres are exact reals; months and years are integers. */
module CalendarProjection {
  import opened Coercion

  /** One entry of `monthlyBreakdown`. */
  datatype MonthEntry = MonthEntry(
    month: int,            // 1-based index into the breakdown
    currentMonth: int,     // calendar month, 1..12
    currentYear: int,      // calendar year
    leasingCost: real,
    oneTimePayment: real,
    insuranceCost: real,
    energyCost: real,
    extraKmCost: real,
    taxReturn: real,
    totalCost: real,
    cumulativeCost: real,
    isAfterLeasing: bool)

  /** The object `calculateCosts` returns. */
  datatype Costs = Costs(
    duration: int,
    totalKmPerYear: real,
    totalKmLeasingPeriod: real,
    includedKmLeasingPeriod: real,
    extraKm: real,
    extraKmCost: real,
    taxOfficeKmPerYear: real,
    taxReturnPerYear: real,
    totalTaxReturn: real,
    energyCostPerKm: real,
    totalEnergyCost: real,
    totalInsuranceCost: real,
    leasingCost: real,
    totalCostBeforeTax: real,
    totalCostAfterTax: real,
    monthlyCostBeforeTax: real,
    monthlyCostAfterTax: real,
    costPerKmBeforeTax: real,
    costPerKmAfterTax: real,
    monthlyBreakdown: seq<MonthEntry>)

  function Max(a: real, b: real): (m: real)
    ensures m >= a && m >= b
  {
    if a >= b then a else b
  }

  // ---------------------------------------------------------------------
  // Yearly rates shared by the aggregates and the breakdown

  /** Kilometres driven per year: fixed private kilometres plus the round
      trip to the office on every office day. */
  function TotalKmPerYear(p: Params): real
  {
    p.fixedKm as real + p.officeKm * p.officeDays as real * 2.0
  }

  /** Round-trip office kilometres claimed for tax (tax days, no private km). */
  function TaxOfficeKmPerYear(p: Params): real
  {
    p.officeKm * p.taxOfficeDays as real * 2.0
  }

  function TaxReturnPerYear(p: Params): real
  {
    TaxOfficeKmPerYear(p) * p.taxReturn
  }

  function EnergyCostPerKm(p: Params): real
  {
    p.energyConsumption / 100.0 * p.energyCost
  }

  // ---------------------------------------------------------------------
  // Calendar resolution

  /** Calendar month of breakdown month `month`. */
  function CalendarMonth(p: Params, month: int): int
  {
    JsRem12((p.startMonth - 1) + month - 1) + 1
  }

  /** Calendar year of breakdown month `month`. */
  function CalendarYear(p: Params, month: int): int
  {
    p.startYear + ((p.startMonth - 1) + month - 1) / 12
  }

  /** `endMonth`: as written, the calendar month AFTER the final lease month. */
  function EndMonth(p: Params): int
  {
    JsRem12((p.startMonth - 1) + p.duration) + 1
  }

  /** `endYear`: the calendar year of `EndMonth`. */
  function EndYear(p: Params): int
  {
    p.startYear + ((p.startMonth - 1) + p.duration) / 12
  }

  /** The numerator of the final month's `yearFraction`: the calendar month
      of the final lease month. */
  function FinalLeaseMonth(p: Params): int
  {
    JsRem12((p.startMonth - 1) + p.duration - 1) + 1
  }

  // ---------------------------------------------------------------------
  // Scheduling rules: what breakdown month `month` is charged

  function LeasingCharge(p: Params, month: int): real
  {
    if month <= p.duration then p.monthly else 0.0
  }

  function OneTimeCharge(p: Params, month: int): real
  {
    if month == 1 then p.oneTime else 0.0
  }

  /** The start month pays for the rest of its calendar year; every later
      in-term January pays a full year, or `endMonth` twelfths in the year
      of `endYear`. */
  function InsuranceCharge(p: Params, month: int): real
  {
    if month == 1 then
      (p.insuranceCost / 12.0) * (13 - p.startMonth) as real
    else if CalendarMonth(p, month) == 1 && month <= p.duration then
      if CalendarYear(p, month) == EndYear(p) then (p.insuranceCost / 12.0) * EndMonth(p) as real
      else p.insuranceCost
    else 0.0
  }

  /** The whole yearly refund in every in-term March. */
  function TaxRefund(p: Params, month: int): real
  {
    if CalendarMonth(p, month) == 3 && month <= p.duration then TaxReturnPerYear(p) else 0.0
  }

  /** A twelfth of the yearly kilometres, priced, in every in-term month. */
  function EnergyCharge(p: Params, month: int): real
  {
    (if month <= p.duration then TotalKmPerYear(p) / 12.0 else 0.0) * EnergyCostPerKm(p)
  }

  /** The share of a year an extra-km settlement covers: the months of the
      final year up to the final lease month, or a whole year. */
  function ExtraKmYearFraction(p: Params, month: int): real
  {
    if month == p.duration then FinalLeaseMonth(p) as real / 12.0 else 1.0
  }

  /** Kilometres over the allowance in the given share of a year. */
  function YearOverKm(p: Params, yearFraction: real): real
  {
    var yearlyKm := TotalKmPerYear(p) * yearFraction;
    var includedYearlyKm := p.included as real * yearFraction;
    Max(0.0, yearlyKm - includedYearlyKm)
  }

  /** The overage of one (possibly partial) year, charged in an in-term
      December or in the final lease month. */
  function ExtraKmCharge(p: Params, month: int): real
  {
    if (CalendarMonth(p, month) == 12 && month <= p.duration) || month == p.duration then
      YearOverKm(p, ExtraKmYearFraction(p, month)) * p.extraCost
    else 0.0
  }

  function MonthTotal(p: Params, month: int): real
  {
    LeasingCharge(p, month) + OneTimeCharge(p, month) + InsuranceCharge(p, month)
      + EnergyCharge(p, month) + ExtraKmCharge(p, month) - TaxRefund(p, month)
  }

  /** Running total after breakdown month `month`. */
  function CumulativeCost(p: Params, month: int): real
    decreases month
  {
    if month <= 0 then 0.0 else CumulativeCost(p, month - 1) + MonthTotal(p, month)
  }

  /** Insurance accumulated over the in-term months among 1..`month`. */
  function InsuranceUpTo(p: Params, month: int): real
    decreases month
  {
    if month <= 0 then 0.0
    else InsuranceUpTo(p, month - 1) + (if month <= p.duration then InsuranceCharge(p, month) else 0.0)
  }

  function Entry(p: Params, month: int): MonthEntry
  {
    MonthEntry(
      month := month,
      currentMonth := CalendarMonth(p, month),
      currentYear := CalendarYear(p, month),
      leasingCost := LeasingCharge(p, month),
      oneTimePayment := OneTimeCharge(p, month),
      insuranceCost := InsuranceCharge(p, month),
      energyCost := EnergyCharge(p, month),
      extraKmCost := ExtraKmCharge(p, month),
      taxReturn := TaxRefund(p, month),
      totalCost := MonthTotal(p, month),
      cumulativeCost := CumulativeCost(p, month),
      isAfterLeasing := month > p.duration)
  }

  /** Number of breakdown entries the loop `for month in 1..duration+1` pushes. */
  function EntryCount(p: Params): nat
  {
    if p.duration + 1 > 0 then p.duration + 1 else 0
  }

  function Breakdown(p: Params): seq<MonthEntry>
  {
    seq(EntryCount(p), k => Entry(p, k + 1))
  }

  // ---------------------------------------------------------------------
  // Aggregates

  /** The zeroed result for a zero duration. */
  function ZeroCosts(): Costs
  {
    Costs(0, 0.0, 0.0, 0.0, 0.0, 0.0, 0.0, 0.0, 0.0, 0.0, 0.0, 0.0, 0.0, 0.0,
          0.0, 0.0, 0.0, 0.0, 0.0, [])
  }

  function DurationInYears(p: Params): real
  {
    p.duration as real / 12.0
  }

  function TotalKmLeasingPeriod(p: Params): real
  {
    TotalKmPerYear(p) * DurationInYears(p)
  }

  function IncludedKmLeasingPeriod(p: Params): real
  {
    p.included as real * DurationInYears(p)
  }

  /** Kilometres over the term's allowance, never negative. */
  function ExtraKm(p: Params): real
  {
    Max(0.0, TotalKmLeasingPeriod(p) - IncludedKmLeasingPeriod(p))
  }

  function ExtraKmCost(p: Params): real
  {
    ExtraKm(p) * p.extraCost
  }

  function TotalTaxReturn(p: Params): real
  {
    TaxReturnPerYear(p) * DurationInYears(p)
  }

  function TotalEnergyCost(p: Params): real
  {
    TotalKmLeasingPeriod(p) * EnergyCostPerKm(p)
  }

  function LeasingCost(p: Params): real
  {
    p.oneTime + p.monthly * p.duration as real
  }

  /** The aggregate totals, given the accumulated insurance and the breakdown. */
  function Summarize(p: Params, insurance: real, breakdown: seq<MonthEntry>): Costs
    requires p.duration != 0
  {
    var totalKm := TotalKmLeasingPeriod(p);
    var before := LeasingCost(p) + ExtraKmCost(p) + TotalEnergyCost(p) + insurance;
    var after := before - TotalTaxReturn(p);
    Costs(
      duration := p.duration,
      totalKmPerYear := TotalKmPerYear(p),
      totalKmLeasingPeriod := totalKm,
      includedKmLeasingPeriod := IncludedKmLeasingPeriod(p),
      extraKm := ExtraKm(p),
      extraKmCost := ExtraKmCost(p),
      taxOfficeKmPerYear := TaxOfficeKmPerYear(p),
      taxReturnPerYear := TaxReturnPerYear(p),
      totalTaxReturn := TotalTaxReturn(p),
      energyCostPerKm := EnergyCostPerKm(p),
      totalEnergyCost := TotalEnergyCost(p),
      totalInsuranceCost := insurance,
      leasingCost := LeasingCost(p),
      totalCostBeforeTax := before,
      totalCostAfterTax := after,
      monthlyCostBeforeTax := before / p.duration as real,
      monthlyCostAfterTax := after / p.duration as real,
      costPerKmBeforeTax := if totalKm > 0.0 then before / totalKm else 0.0,
      costPerKmAfterTax := if totalKm > 0.0 then after / totalKm else 0.0,
      monthlyBreakdown := breakdown)
  }

  /** What `calculateCosts` returns, as a function of the coerced parameters. */
  function Projection(p: Params): Costs
  {
    if p.duration == 0 then ZeroCosts()
    else Summarize(p, InsuranceUpTo(p, p.duration), Breakdown(p))
  }

  /** The entry one pass of the breakdown loop pushes, given the running
      total before the month, is the month's entry. */
  lemma PushedEntry(p: Params, month: int, entry: MonthEntry)
    requires 1 <= month
    requires entry.month == month && entry.currentMonth == CalendarMonth(p, month)
    requires entry.currentYear == CalendarYear(p, month)
    requires entry.leasingCost == LeasingCharge(p, month) && entry.oneTimePayment == OneTimeCharge(p, month)
    requires entry.insuranceCost == InsuranceCharge(p, month) && entry.energyCost == EnergyCharge(p, month)
    requires entry.extraKmCost == ExtraKmCharge(p, month) && entry.taxReturn == TaxRefund(p, month)
    requires entry.totalCost == entry.leasingCost + entry.oneTimePayment + entry.insuranceCost
      + entry.energyCost + entry.extraKmCost - entry.taxReturn
    requires entry.cumulativeCost == CumulativeCost(p, month - 1) + entry.totalCost
    requires entry.isAfterLeasing == (month > p.duration)
    ensures entry == Entry(p, month)
  {
  }

  /** Appending the next month's entry keeps the breakdown the months'
      entries in order. */
  lemma EntriesExtended(p: Params, breakdown: seq<MonthEntry>, entry: MonthEntry)
    requires forall k :: 0 <= k < |breakdown| ==> breakdown[k] == Entry(p, k + 1)
    requires entry == Entry(p, |breakdown| + 1)
    ensures forall k :: 0 <= k < |breakdown + [entry]| ==> (breakdown + [entry])[k] == Entry(p, k + 1)
  {
  }

  /** `calculateCosts`: the zero-duration guard, then the breakdown loop,
      then the aggregates. */
  method CalculateCosts(p: Params) returns (c: Costs)
    ensures c == Projection(p)
  {
    if p.duration == 0 {
      return ZeroCosts();
    }
    var breakdown, calculatedTotalInsuranceCost := BreakdownLoop(p);
    c := Summarize(p, calculatedTotalInsuranceCost, breakdown);
  }

  /** The breakdown loop of `calculateCosts`: it pushes one entry per month
      `1..duration + 1`, keeping the running cumulative cost, and totals
      the insurance of the in-term months. */
  method BreakdownLoop(p: Params) returns (breakdown: seq<MonthEntry>, calculatedTotalInsuranceCost: real)
    ensures breakdown == Breakdown(p)
    ensures calculatedTotalInsuranceCost == InsuranceUpTo(p, p.duration)
  {
    breakdown := [];
    var cumulativeCost := 0.0;
    calculatedTotalInsuranceCost := 0.0;
    var chartDuration := p.duration + 1;
    var month := 1;
    while month <= chartDuration
      invariant 1 <= month && (month <= chartDuration + 1 || month == 1)
      invariant |breakdown| == month - 1
      invariant forall k :: 0 <= k < |breakdown| ==> breakdown[k] == Entry(p, k + 1)
      invariant cumulativeCost == CumulativeCost(p, month - 1)
      invariant calculatedTotalInsuranceCost == InsuranceUpTo(p, month - 1)
    {
      var insurance := InsuranceCharge(p, month);
      if month <= p.duration {
        calculatedTotalInsuranceCost := calculatedTotalInsuranceCost + insurance;
      }
      var monthlyCost := LeasingCharge(p, month) + OneTimeCharge(p, month) + insurance
        + EnergyCharge(p, month) + ExtraKmCharge(p, month) - TaxRefund(p, month);
      cumulativeCost := cumulativeCost + monthlyCost;
      var entry := MonthEntry(
        month, CalendarMonth(p, month), CalendarYear(p, month),
        LeasingCharge(p, month), OneTimeCharge(p, month), insurance,
        EnergyCharge(p, month), ExtraKmCharge(p, month), TaxRefund(p, month),
        monthlyCost, cumulativeCost, month > p.duration);
      PushedEntry(p, month, entry);
      EntriesExtended(p, breakdown, entry);
      breakdown := breakdown + [entry];
      month := month + 1;
    }
    assert forall k :: 0 <= k < |breakdown| ==> breakdown[k] == Breakdown(p)[k];
    if p.duration >= 0 {
      assert InsuranceUpTo(p, p.duration + 1) == InsuranceUpTo(p, p.duration);
    }
  }
}
