/** The monthly chart series of the older projector, `createChartData` in
    src/components/ResultsSection.js: one point per month from month 0 to
    `duration + 12`, with the kilometres driven tracked per chart year so
    that only the kilometres above the yearly allowance are charged, the
    tax refund paid each March, and the running cumulative cost. */
module LegacyChart {
  import opened Coercion
  import CalendarProjection
  import Shares
  import CalendarProperties
  import LegacyProjection

  const MonthNames: seq<string> :=
    ["Jan", "Feb", "Mar", "Apr", "Mai", "Jun", "Jul", "Aug", "Sep", "Okt", "Nov", "Dez"]

  /** A point's axis label: the month's name and the chart year counted from 1. */
  datatype Label = Label(monthName: string, year: int)

  /** A chart year's entry in the tracker; `extraKmCost` is never updated. */
  datatype Tracker = Tracker(kmDriven: real, includedKm: int, extraKmCost: real)

  /** The eight series and their labels, in the order of the datasets. */
  datatype ChartData = ChartData(
    labels: seq<Label>,
    oneTimeCosts: seq<real>,
    monthlyCosts: seq<real>,
    extraKmCosts: seq<real>,
    workEnergyCosts: seq<real>,
    privateEnergyCosts: seq<real>,
    insuranceCosts: seq<real>,
    taxReturns: seq<real>,
    effectiveCosts: seq<real>)

  /** The values of one chart month, one per series. */
  datatype Point = Point(
    monthLabel: Label,
    oneTimeCost: real,
    monthlyCost: real,
    extraKmCost: real,
    workEnergyCost: real,
    privateEnergyCost: real,
    insuranceCost: real,
    taxReturn: real,
    effectiveCost: real)

  function MinReal(a: real, b: real): real { if a <= b then a else b }

  function MaxInt(a: int, b: int): int { if a >= b then a else b }

  // ---------------------------------------------------------------------
  // Rates, computed once before the monthly loop

  /** The per-month and per-year quantities the chart is drawn from. */
  datatype Rates = Rates(
    yearlyIncludedKm: int,
    monthlyOfficeKm: real,
    monthlyFixedKm: real,
    extraKmCostPerKm: real,
    yearlyTaxReturn: real,
    monthlyInsuranceCost: real,
    energyCostPerKm: real)

  function RatesOf(p: Params): Rates
  {
    Rates(
      p.included,
      LegacyProjection.YearlyOfficeKm(p) / 12.0,
      p.fixedKm as real / 12.0,
      p.extraCost,
      LegacyProjection.YearlyTaxOfficeKm(p) * p.taxReturn,
      p.insuranceCost / 12.0,
      CalendarProjection.EnergyCostPerKm(p))
  }

  /** Kilometres driven in one leased month. */
  function MonthlyKm(r: Rates): real
  {
    r.monthlyOfficeKm + r.monthlyFixedKm
  }

  /** The number of chart points: months 0 to `duration + 12`. */
  function Points(p: Params): int
  {
    if p.duration + 12 >= 0 then p.duration + 13 else 0
  }

  // ---------------------------------------------------------------------
  // The value of each series at chart month `i`

  /** Chart month `i` is a leased month: 1 to `duration`. */
  predicate InTerm(p: Params, i: int)
  {
    0 < i <= p.duration
  }

  function LabelAt(i: int): Label
    requires 0 <= i
  {
    Label(MonthNames[i % 12], i / 12 + 1)
  }

  function OneTimeAt(p: Params, i: int): real
  {
    if i == 0 then p.oneTime else 0.0
  }

  function LeaseAt(p: Params, i: int): real
  {
    if InTerm(p, i) then p.monthly else 0.0
  }

  /** Kilometres driven in the chart year of month `i` up to and including
      month `i`; a chart year starts at a month that is a multiple of 12. */
  function KmDriven(d: int, monthKm: real, i: int): real
    decreases i
  {
    (if i <= 0 || i % 12 == 0 then 0.0 else KmDriven(d, monthKm, i - 1))
    + (if 0 < i <= d then monthKm else 0.0)
  }

  /** Kilometres driven in the chart year of month `i` before month `i`. */
  function KmBefore(d: int, monthKm: real, i: int): real
  {
    if i <= 0 || i % 12 == 0 then 0.0 else KmDriven(d, monthKm, i - 1)
  }

  /** The kilometres charged for a month of `monthKm` kilometres that
      brings the year's total to `km` against an allowance of `included`:
      none while the total is within the allowance, otherwise the month's
      kilometres above the allowance, at most the whole month. */
  function KmOverLimit(km: real, included: real, monthKm: real): real
  {
    if km > included then MinReal(monthKm, km - CalendarProjection.Max(included, km - monthKm))
    else 0.0
  }

  /** The kilometres charged in chart month `i`: only months up to
      `duration` are charged, against the year tracker's total. */
  function ChargedKmAt(p: Params, r: Rates, i: int): real
  {
    if i <= p.duration then KmOverLimit(KmDriven(p.duration, MonthlyKm(r), i), r.yearlyIncludedKm as real, MonthlyKm(r))
    else 0.0
  }

  /** The overage charge of chart month `i`. */
  function ExtraKmAt(p: Params, r: Rates, i: int): real
  {
    ChargedKmAt(p, r, i) * r.extraKmCostPerKm
  }

  function WorkEnergyAt(p: Params, r: Rates, i: int): real
  {
    if InTerm(p, i) then r.monthlyOfficeKm * r.energyCostPerKm else 0.0
  }

  function PrivateEnergyAt(p: Params, r: Rates, i: int): real
  {
    if InTerm(p, i) then r.monthlyFixedKm * r.energyCostPerKm else 0.0
  }

  function InsuranceAt(p: Params, r: Rates, i: int): real
  {
    if InTerm(p, i) then r.monthlyInsuranceCost else 0.0
  }

  /** A refund is due in the March of chart year `i / 12` for the lease
      year before it, when that lease year is one of the
      `ceil(duration / 12)` lease years. */
  predicate RefundDue(d: int, i: int)
  {
    i % 12 == 2 && i / 12 > 0 && i / 12 - 1 < Ceil12(d)
  }

  /** The leased months of lease year `year`, between 0 and 12. */
  function LeasedMonths(d: int, year: int): int
  {
    CalendarProperties.MinInt(12, MaxInt(0, d - year * 12))
  }

  function RefundAt(p: Params, r: Rates, i: int): real
  {
    if RefundDue(p.duration, i) then r.yearlyTaxReturn * (LeasedMonths(p.duration, i / 12 - 1) as real / 12.0)
    else 0.0
  }

  /** Month `i`'s net cost: all charges less the refund. */
  function NetAt(p: Params, r: Rates, i: int): real
  {
    OneTimeAt(p, i) + LeaseAt(p, i) + ExtraKmAt(p, r, i)
    + WorkEnergyAt(p, r, i) + PrivateEnergyAt(p, r, i)
    + InsuranceAt(p, r, i) - RefundAt(p, r, i)
  }

  /** Net cost of months 0 to `i`. */
  function CumulativeAt(p: Params, r: Rates, i: int): real
    decreases i
  {
    if i < 0 then 0.0 else CumulativeAt(p, r, i - 1) + NetAt(p, r, i)
  }

  /** The series with no points. */
  function NoPoints(): ChartData
  {
    ChartData([], [], [], [], [], [], [], [], [])
  }

  /** Chart month `i`'s point; the refund is entered as a negative amount. */
  function PointAt(p: Params, r: Rates, i: int): Point
    requires 0 <= i
  {
    Point(LabelAt(i), OneTimeAt(p, i), LeaseAt(p, i), ExtraKmAt(p, r, i),
      WorkEnergyAt(p, r, i), PrivateEnergyAt(p, r, i), InsuranceAt(p, r, i),
      -RefundAt(p, r, i), CumulativeAt(p, r, i))
  }

  /** The series with a point appended. */
  function Extend(c: ChartData, pt: Point): ChartData
  {
    ChartData(
      c.labels + [pt.monthLabel],
      c.oneTimeCosts + [pt.oneTimeCost],
      c.monthlyCosts + [pt.monthlyCost],
      c.extraKmCosts + [pt.extraKmCost],
      c.workEnergyCosts + [pt.workEnergyCost],
      c.privateEnergyCosts + [pt.privateEnergyCost],
      c.insuranceCosts + [pt.insuranceCost],
      c.taxReturns + [pt.taxReturn],
      c.effectiveCosts + [pt.effectiveCost])
  }

  /** The series of chart months 0 to `n - 1`. */
  function ChartUpTo(p: Params, r: Rates, n: int): ChartData
    decreases n
  {
    if n <= 0 then NoPoints() else Extend(ChartUpTo(p, r, n - 1), PointAt(p, r, n - 1))
  }

  lemma ExtendedChart(p: Params, r: Rates, i: int)
    requires 0 <= i
    ensures ChartUpTo(p, r, i + 1) == Extend(ChartUpTo(p, r, i), PointAt(p, r, i))
  {
  }

  /** What `createChartData` returns, as a function of the coerced parameters. */
  function Chart(p: Params): ChartData
  {
    ChartUpTo(p, RatesOf(p), Points(p))
  }

  /** The tracker after chart month `i`: its chart year's entry is created
      with no kilometres and the allowance, and a leased month adds its
      kilometres. */
  function TrackStep(tracker: map<int, Tracker>, d: int, monthKm: real, included: int, i: int): map<int, Tracker>
  {
    var year := i / 12;
    var created := if year in tracker then tracker else tracker[year := Tracker(0.0, included, 0.0)];
    if 0 < i <= d then created[year := created[year].(kmDriven := created[year].kmDriven + monthKm)]
    else created
  }

  /** The tracker after chart months 0 to `n - 1` holds one entry per
      chart year begun, each with the yearly allowance, and the entry of the
      latest month's chart year holds the kilometres driven in that year
      so far (the entries of earlier years are never read again). */
  ghost predicate TrackerInv(tracker: map<int, Tracker>, d: int, monthKm: real, included: int, n: int)
  {
    && (forall y :: y in tracker <==> 0 <= y && 12 * y < n)
    && (forall y :: y in tracker ==> tracker[y].includedKm == included && tracker[y].extraKmCost == 0.0)
    && (0 < n ==> tracker[(n - 1) / 12].kmDriven == KmDriven(d, monthKm, n - 1))
  }

  /** Processing chart month `i` keeps the tracker's meaning. */
  lemma TrackStepKeepsInv(tracker: map<int, Tracker>, d: int, monthKm: real, included: int, i: int)
    requires 0 <= i && TrackerInv(tracker, d, monthKm, included, i)
    ensures TrackerInv(TrackStep(tracker, d, monthKm, included, i), d, monthKm, included, i + 1)
  {
    var year := i / 12;
    var next := TrackStep(tracker, d, monthKm, included, i);
    assert 12 * year <= i < 12 * year + 12;
    assert year in tracker <==> i % 12 != 0;
    if i % 12 != 0 {
      assert (i - 1) / 12 == year;
    }
    forall y
      ensures y in next <==> 0 <= y && 12 * y < i + 1
    {
      if y != year {
        assert y in next <==> y in tracker;
      }
    }
  }

  /** The year tracker's part of chart month `i`: the entry for the
      month's chart year is created on first use and a leased month adds
      its kilometres. */
  method TrackMonth(p: Params, r: Rates, i: int, yearTracker: map<int, Tracker>)
      returns (updated: map<int, Tracker>)
    requires 0 <= i && TrackerInv(yearTracker, p.duration, MonthlyKm(r), r.yearlyIncludedKm, i)
    ensures TrackerInv(updated, p.duration, MonthlyKm(r), r.yearlyIncludedKm, i + 1)
  {
    updated := yearTracker;
    var currentYear := i / 12;
    if currentYear !in updated {
      updated := updated[currentYear := Tracker(0.0, r.yearlyIncludedKm, 0.0)];
    }
    if i > 0 && i <= p.duration {
      var t := updated[currentYear];
      updated := updated[currentYear := t.(kmDriven := t.kmDriven + (r.monthlyOfficeKm + r.monthlyFixedKm))];
    }
    assert updated == TrackStep(yearTracker, p.duration, MonthlyKm(r), r.yearlyIncludedKm, i);
    TrackStepKeepsInv(yearTracker, p.duration, MonthlyKm(r), r.yearlyIncludedKm, i);
  }

  /** The overage charge of chart month `i` from the tracker's entry for
      its chart year: once the year's kilometres exceed the allowance,
      the month's kilometres above it, at the rate. */
  method ChargeMonth(p: Params, r: Rates, i: int, tracked: Tracker) returns (extraKmCostThisMonth: real)
    requires tracked.kmDriven == KmDriven(p.duration, MonthlyKm(r), i)
    requires tracked.includedKm == r.yearlyIncludedKm
    ensures extraKmCostThisMonth == ExtraKmAt(p, r, i)
  {
    extraKmCostThisMonth := 0.0;
    if i <= p.duration && tracked.kmDriven > tracked.includedKm as real {
      var kmOverLimitThisMonth := MinReal(r.monthlyOfficeKm + r.monthlyFixedKm,
        tracked.kmDriven - CalendarProjection.Max(tracked.includedKm as real, tracked.kmDriven - (r.monthlyOfficeKm + r.monthlyFixedKm)));
      ChargedFromTracker(p, r, i, tracked.kmDriven, kmOverLimitThisMonth);
      extraKmCostThisMonth := kmOverLimitThisMonth * r.extraKmCostPerKm;
      ChargeAtRate(p, r, i, kmOverLimitThisMonth, extraKmCostThisMonth);
    } else {
      ChargedFromTracker(p, r, i, tracked.kmDriven, 0.0);
      ChargeAtRate(p, r, i, 0.0, extraKmCostThisMonth);
    }
  }

  /** The kilometres charged in chart month `i`, worked out from the
      tracker's total `km` for the month's chart year. */
  lemma ChargedFromTracker(p: Params, r: Rates, i: int, km: real, charged: real)
    requires km == KmDriven(p.duration, MonthlyKm(r), i)
    requires charged == if i <= p.duration && km > r.yearlyIncludedKm as real
      then MinReal(MonthlyKm(r), km - CalendarProjection.Max(r.yearlyIncludedKm as real, km - MonthlyKm(r)))
      else 0.0
    ensures charged == ChargedKmAt(p, r, i)
  {
  }

  /** The month's charged kilometres at the rate are its overage charge. */
  lemma ChargeAtRate(p: Params, r: Rates, i: int, charged: real, cost: real)
    requires charged == ChargedKmAt(p, r, i) && cost == charged * r.extraKmCostPerKm
    ensures cost == ExtraKmAt(p, r, i)
  {
    Shares.EqualTimes(charged, ChargedKmAt(p, r, i), r.extraKmCostPerKm);
  }

  /** `createChartData`: the rates are computed once, then the monthly
      series are built from them. */
  method CreateChartData(p: Params) returns (chart: ChartData)
    ensures chart == Chart(p)
  {
    var yearlyIncludedKm := p.included;
    var yearlyOfficeKm := p.officeKm * 2.0 * p.officeDays as real;
    var monthlyOfficeKm := yearlyOfficeKm / 12.0;
    var monthlyFixedKm := p.fixedKm as real / 12.0;
    var yearlyTaxOfficeKm := p.officeKm * 2.0 * p.taxOfficeDays as real;
    var extraKmCostPerKm := p.extraCost;
    var yearlyTaxReturn := yearlyTaxOfficeKm * p.taxReturn;
    var monthlyInsuranceCost := p.insuranceCost / 12.0;
    var energyPerKm := p.energyConsumption / 100.0;
    var energyCostPerKm := energyPerKm * p.energyCost;
    var rates := Rates(yearlyIncludedKm, monthlyOfficeKm, monthlyFixedKm, extraKmCostPerKm,
      yearlyTaxReturn, monthlyInsuranceCost, energyCostPerKm);
    assert rates == RatesOf(p);
    chart := MonthlySeries(p, rates);
  }

  /** One pass of the monthly loop of `createChartData`, up to the pushes:
      the label, the charges of chart month `i`, the year tracker's update
      and the cumulative cost. */
  method ComputeMonth(p: Params, r: Rates, i: int, yearTracker: map<int, Tracker>, cumulativeCost: real)
      returns (updated: map<int, Tracker>, point: Point)
    requires 0 <= i && TrackerInv(yearTracker, p.duration, MonthlyKm(r), r.yearlyIncludedKm, i)
    requires cumulativeCost == CumulativeAt(p, r, i - 1)
    ensures TrackerInv(updated, p.duration, MonthlyKm(r), r.yearlyIncludedKm, i + 1)
    ensures point == PointAt(p, r, i)
  {
    var monthInYear := i % 12;
    var year := i / 12;
    var monthLabel := Label(MonthNames[monthInYear], year + 1);

    var monthlyLeasingCost := LeaseAt(p, i);
    var oneTimePayment := OneTimeAt(p, i);

    var extraKmCostThisMonth;
    updated := TrackMonth(p, r, i, yearTracker);
    extraKmCostThisMonth := ChargeMonth(p, r, i, updated[year]);

    var workEnergyCostThisMonth := WorkEnergyAt(p, r, i);
    var privateEnergyCostThisMonth := PrivateEnergyAt(p, r, i);
    var insuranceCostThisMonth := InsuranceAt(p, r, i);
    var taxReturnThisMonth := RefundAt(p, r, i);

    var thisMonthCost := oneTimePayment + monthlyLeasingCost + extraKmCostThisMonth
      + workEnergyCostThisMonth + privateEnergyCostThisMonth
      + insuranceCostThisMonth - taxReturnThisMonth;
    assert thisMonthCost == NetAt(p, r, i);
    point := Point(monthLabel, oneTimePayment, monthlyLeasingCost, extraKmCostThisMonth,
      workEnergyCostThisMonth, privateEnergyCostThisMonth, insuranceCostThisMonth,
      -taxReturnThisMonth, cumulativeCost + thisMonthCost);
  }

  /** The monthly loop of `createChartData`: for each chart month from 0
      to `duration + 12` the month's point is computed and pushed onto the
      series. */
  method MonthlySeries(p: Params, r: Rates) returns (chart: ChartData)
    ensures chart == ChartUpTo(p, r, Points(p))
  {
    var totalMonths := p.duration + 12;
    var months: seq<Label> := [];
    var monthlyCosts: seq<real> := [];
    var extraKmCosts: seq<real> := [];
    var oneTimeCosts: seq<real> := [];
    var taxReturns: seq<real> := [];
    var workEnergyCosts: seq<real> := [];
    var privateEnergyCosts: seq<real> := [];
    var insuranceCosts: seq<real> := [];
    var effectiveCosts: seq<real> := [];
    var yearTracker: map<int, Tracker> := map[];
    var cumulativeCost := 0.0;
    var i := 0;
    while i <= totalMonths
      invariant 0 <= i && (i <= totalMonths + 1 || i == 0)
      invariant ChartData(months, oneTimeCosts, monthlyCosts, extraKmCosts, workEnergyCosts,
        privateEnergyCosts, insuranceCosts, taxReturns, effectiveCosts) == ChartUpTo(p, r, i)
      invariant TrackerInv(yearTracker, p.duration, MonthlyKm(r), r.yearlyIncludedKm, i)
      invariant cumulativeCost == CumulativeAt(p, r, i - 1)
    {
      var point;
      yearTracker, point := ComputeMonth(p, r, i, yearTracker, cumulativeCost);
      cumulativeCost := point.effectiveCost;
      months := months + [point.monthLabel];
      monthlyCosts := monthlyCosts + [point.monthlyCost];
      oneTimeCosts := oneTimeCosts + [point.oneTimeCost];
      extraKmCosts := extraKmCosts + [point.extraKmCost];
      workEnergyCosts := workEnergyCosts + [point.workEnergyCost];
      privateEnergyCosts := privateEnergyCosts + [point.privateEnergyCost];
      insuranceCosts := insuranceCosts + [point.insuranceCost];
      taxReturns := taxReturns + [point.taxReturn];
      effectiveCosts := effectiveCosts + [point.effectiveCost];
      ExtendedChart(p, r, i);
      i := i + 1;
    }
    chart := ChartData(months, oneTimeCosts, monthlyCosts, extraKmCosts,
      workEnergyCosts, privateEnergyCosts, insuranceCosts, taxReturns, effectiveCosts);
  }
}
