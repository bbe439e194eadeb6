/** What the monthly chart of the older projector shows: the shape of
    its series, when each charge appears, the overage charged month by
    month, the March refunds and the totals of the series. */
module ChartProperties {
  import opened Coercion
  import opened Shares
  import CalendarProjection
  import CalendarProperties
  import LegacyProjection
  import opened LegacyChart

  // ---------------------------------------------------------------------
  // Shape of the series

  /** Every series of `c` has `n` entries. */
  predicate HasLength(c: ChartData, n: int)
  {
    && |c.labels| == n && |c.oneTimeCosts| == n && |c.monthlyCosts| == n
    && |c.extraKmCosts| == n && |c.workEnergyCosts| == n && |c.privateEnergyCosts| == n
    && |c.insuranceCosts| == n && |c.taxReturns| == n && |c.effectiveCosts| == n
  }

  /** Entry `k` of every series of `c` holds the matching value of `pt`. */
  predicate EntryIs(c: ChartData, k: int, pt: Point)
  {
    && 0 <= k < |c.labels| && c.labels[k] == pt.monthLabel
    && k < |c.oneTimeCosts| && c.oneTimeCosts[k] == pt.oneTimeCost
    && k < |c.monthlyCosts| && c.monthlyCosts[k] == pt.monthlyCost
    && k < |c.extraKmCosts| && c.extraKmCosts[k] == pt.extraKmCost
    && k < |c.workEnergyCosts| && c.workEnergyCosts[k] == pt.workEnergyCost
    && k < |c.privateEnergyCosts| && c.privateEnergyCosts[k] == pt.privateEnergyCost
    && k < |c.insuranceCosts| && c.insuranceCosts[k] == pt.insuranceCost
    && k < |c.taxReturns| && c.taxReturns[k] == pt.taxReturn
    && k < |c.effectiveCosts| && c.effectiveCosts[k] == pt.effectiveCost
  }

  /** Appending a point to series of `n` entries adds entry `n` and keeps
      the others. */
  lemma ExtendEntries(c: ChartData, pt: Point, n: int)
    requires HasLength(c, n)
    ensures HasLength(Extend(c, pt), n + 1) && EntryIs(Extend(c, pt), n, pt)
    ensures forall k, q :: EntryIs(c, k, q) ==> EntryIs(Extend(c, pt), k, q)
  {
  }

  /** The series of the first `n` chart months have `n` entries each. */
  lemma {:induction false} ChartLength(p: Params, r: Rates, n: int)
    ensures HasLength(ChartUpTo(p, r, n), if n <= 0 then 0 else n)
  {
    if n > 0 {
      ChartLength(p, r, n - 1);
      ExtendEntries(ChartUpTo(p, r, n - 1), PointAt(p, r, n - 1), n - 1);
    }
  }

  /** Entry `k` of the series is chart month `k`'s point, however many
      months follow it. */
  lemma {:induction false} ChartEntry(p: Params, r: Rates, n: int, k: int)
    requires 0 <= k < n
    ensures EntryIs(ChartUpTo(p, r, n), k, PointAt(p, r, k))
  {
    ChartLength(p, r, n - 1);
    ExtendedChart(p, r, n - 1);
    if k < n - 1 {
      ChartEntry(p, r, n - 1, k);
    }
    EntryOfExtended(ChartUpTo(p, r, n - 1), PointAt(p, r, n - 1), n - 1, k, PointAt(p, r, k), ChartUpTo(p, r, n));
  }

  /** Entry `k` of series extended past `n` entries: the new point when
      `k == n`, the old entry before. */
  lemma EntryOfExtended(c: ChartData, pt: Point, n: int, k: int, q: Point, next: ChartData)
    requires HasLength(c, n) && next == Extend(c, pt) && 0 <= k <= n
    requires if k == n then q == pt else EntryIs(c, k, q)
    ensures EntryIs(next, k, q)
  {
  }

  /** The chart has a point for each month from 0 to `duration + 12`:
      the one-time payment only at month 0, the monthly rate and the
      insurance only in the leased months 1 to `duration`,
      and the refund entered as a negative amount. */
  lemma ChartSeries(p: Params, k: int)
    requires 0 <= k < Points(p)
    ensures HasLength(Chart(p), Points(p))
    ensures Chart(p).labels[k] == Label(MonthNames[k % 12], k / 12 + 1)
    ensures Chart(p).oneTimeCosts[k] == (if k == 0 then p.oneTime else 0.0)
    ensures Chart(p).monthlyCosts[k] == (if 1 <= k <= p.duration then p.monthly else 0.0)
    ensures Chart(p).insuranceCosts[k] == (if 1 <= k <= p.duration then p.insuranceCost / 12.0 else 0.0)
    ensures Chart(p).extraKmCosts[k] == ExtraKmAt(p, RatesOf(p), k)
    ensures Chart(p).taxReturns[k] == -RefundAt(p, RatesOf(p), k)
  {
    ChartLength(p, RatesOf(p), Points(p));
    ChartEntry(p, RatesOf(p), Points(p), k);
  }

  /** The office-commute energy series: a month's office kilometres at
      the energy cost per kilometre, in the leased months 1 to `duration`
      only. */
  lemma ChartWorkEnergySeries(p: Params, k: int)
    requires 0 <= k < Points(p)
    ensures k < |Chart(p).workEnergyCosts|
    ensures Chart(p).workEnergyCosts[k]
      == (if 1 <= k <= p.duration then RatesOf(p).monthlyOfficeKm * RatesOf(p).energyCostPerKm else 0.0)
  {
    WorkEnergyEntry(p, RatesOf(p), Points(p), k);
  }

  /** Entry `k` of the office-commute energy series is chart month `k`'s. */
  lemma WorkEnergyEntry(p: Params, r: Rates, n: int, k: int)
    requires 0 <= k < n
    ensures k < |ChartUpTo(p, r, n).workEnergyCosts|
      && ChartUpTo(p, r, n).workEnergyCosts[k] == WorkEnergyAt(p, r, k)
  {
    ChartEntry(p, r, n, k);
  }

  /** The private-driving energy series: a month's fixed kilometres at
      the energy cost per kilometre, in the leased months 1 to `duration`
      only. */
  lemma ChartPrivateEnergySeries(p: Params, k: int)
    requires 0 <= k < Points(p)
    ensures k < |Chart(p).privateEnergyCosts|
    ensures Chart(p).privateEnergyCosts[k]
      == (if 1 <= k <= p.duration then RatesOf(p).monthlyFixedKm * RatesOf(p).energyCostPerKm else 0.0)
  {
    PrivateEnergyEntry(p, RatesOf(p), Points(p), k);
  }

  /** Entry `k` of the private-driving energy series is chart month `k`'s. */
  lemma PrivateEnergyEntry(p: Params, r: Rates, n: int, k: int)
    requires 0 <= k < n
    ensures k < |ChartUpTo(p, r, n).privateEnergyCosts|
      && ChartUpTo(p, r, n).privateEnergyCosts[k] == PrivateEnergyAt(p, r, k)
  {
    ChartEntry(p, r, n, k);
  }

  /** The cumulative line is the running total of the bars: each month
      adds its charges and subtracts its refund. */
  lemma RunningTotal(p: Params, k: int)
    requires 0 <= k < Points(p)
    ensures HasLength(Chart(p), Points(p))
    ensures var c := Chart(p);
      c.effectiveCosts[k]
      == (if k == 0 then 0.0 else c.effectiveCosts[k - 1])
         + c.oneTimeCosts[k] + c.monthlyCosts[k] + c.extraKmCosts[k]
         + c.workEnergyCosts[k] + c.privateEnergyCosts[k] + c.insuranceCosts[k]
         + c.taxReturns[k]
  {
    ChartLength(p, RatesOf(p), Points(p));
    ChartEntry(p, RatesOf(p), Points(p), k);
    if k > 0 {
      ChartEntry(p, RatesOf(p), Points(p), k - 1);
    }
  }

  // ---------------------------------------------------------------------
  // The overage charged month by month

  /** Kilometres of a chart year above the yearly allowance. */
  function Overage(km: real, included: real): real
  {
    CalendarProjection.Max(0.0, km - included)
  }

  /** The kilometres charged for a month are never negative and never more
      than the month's kilometres. */
  lemma KmOverLimitBounds(km: real, included: real, monthKm: real)
    requires 0.0 <= monthKm
    ensures 0.0 <= KmOverLimit(km, included, monthKm) <= monthKm
  {
  }

  /** The kilometres charged for a month are the growth of the year's
      overage over the month: the overage after it less the overage
      before it. */
  lemma KmOverLimitIsNewOverage(km: real, before: real, included: real, monthKm: real)
    requires 0.0 <= monthKm && km == before + monthKm
    ensures KmOverLimit(km, included, monthKm) == Overage(km, included) - Overage(before, included)
  {
  }

  /** A month's overage charge lies between nothing and the whole month's
      kilometres at the rate. */
  lemma ExtraKmAtBounds(p: Params, r: Rates, i: int)
    requires 0.0 <= MonthlyKm(r) && 0.0 <= r.extraKmCostPerKm
    ensures 0.0 <= ExtraKmAt(p, r, i) <= MonthlyKm(r) * r.extraKmCostPerKm
  {
    var charged := ChargedKmAt(p, r, i);
    assert 0.0 <= charged <= MonthlyKm(r) by {
      if i <= p.duration {
        KmOverLimitBounds(KmDriven(p.duration, MonthlyKm(r), i), r.yearlyIncludedKm as real, MonthlyKm(r));
      }
    }
    ScaledBounds(charged, MonthlyKm(r), r.extraKmCostPerKm);
  }

  lemma ScaledBounds(x: real, most: real, rate: real)
    requires 0.0 <= x <= most && 0.0 <= rate
    ensures 0.0 <= x * rate <= most * rate
  {
    assert (most - x) * rate >= 0.0;
  }

  /** The number of leased months (1 to `d`) in the chart year of month
      `i`, up to and including month `i`. */
  function LeasedSoFar(d: int, i: int): int
  {
    MaxInt(0, CalendarProperties.MinInt(i, d) - MaxInt(1, 12 * (i / 12)) + 1)
  }

  /** The year tracker's kilometres are the monthly kilometres of each
      leased month of the chart year so far. */
  lemma {:induction false} KmDrivenCountsLeasedMonths(d: int, monthKm: real, i: int)
    requires 0 <= i
    ensures KmDriven(d, monthKm, i) == Times(monthKm, LeasedSoFar(d, i))
  {
    if i % 12 == 0 {
      assert 12 * (i / 12) == i;
    } else {
      assert (i - 1) / 12 == i / 12;
      assert 12 * (i / 12) <= i - 1;
      KmDrivenCountsLeasedMonths(d, monthKm, i - 1);
    }
  }

  /** The kilometres charged in chart month `i` are the growth of its
      chart year's overage over the month, when the allowance is not
      negative. */
  lemma ChargedKmIsNewOverage(p: Params, r: Rates, i: int)
    requires 0 <= i && 0 <= r.yearlyIncludedKm && 0.0 <= MonthlyKm(r)
    ensures ChargedKmAt(p, r, i)
      == Overage(KmDriven(p.duration, MonthlyKm(r), i), r.yearlyIncludedKm as real)
         - Overage(KmBefore(p.duration, MonthlyKm(r), i), r.yearlyIncludedKm as real)
  {
    if 0 < i <= p.duration {
      KmOverLimitIsNewOverage(KmDriven(p.duration, MonthlyKm(r), i), KmBefore(p.duration, MonthlyKm(r), i),
        r.yearlyIncludedKm as real, MonthlyKm(r));
    }
  }

  /** The kilometres charged in the first `m` months of chart year `y`. */
  function YearChargedKm(p: Params, r: Rates, y: int, m: int): real
    decreases m
  {
    if m <= 0 then 0.0 else YearChargedKm(p, r, y, m - 1) + ChargedKmAt(p, r, 12 * y + m - 1)
  }

  /** The kilometres charged in a chart year's first `m` months add up to
      the year's overage after them: no kilometre is charged twice and
      none within the allowance is charged. */
  lemma {:induction false} YearChargedKmTelescopes(p: Params, r: Rates, y: int, m: int)
    requires 0 <= y && 0 <= m <= 12
    requires 0 <= r.yearlyIncludedKm && 0.0 <= MonthlyKm(r)
    ensures YearChargedKm(p, r, y, m)
      == Overage(if m == 0 then 0.0 else KmDriven(p.duration, MonthlyKm(r), 12 * y + m - 1),
                 r.yearlyIncludedKm as real)
  {
    if m > 0 {
      var i := 12 * y + m - 1;
      YearChargedKmTelescopes(p, r, y, m - 1);
      ChargedKmIsNewOverage(p, r, i);
      DivBy12(i, y, m - 1);
      if m == 1 {
        assert KmBefore(p.duration, MonthlyKm(r), i) == 0.0;
      } else {
        assert KmBefore(p.duration, MonthlyKm(r), i) == KmDriven(p.duration, MonthlyKm(r), i - 1);
      }
    }
  }

  /** The kilometres charged over a whole chart year are the kilometres
      of its leased months above the yearly allowance; each is charged at
      the rate (`ExtraKmAt`). */
  lemma ChartYearOverage(p: Params, r: Rates, y: int)
    requires 0 <= y && 0 <= r.yearlyIncludedKm && 0.0 <= MonthlyKm(r)
    ensures YearChargedKm(p, r, y, 12)
      == Overage(Times(MonthlyKm(r), LeasedSoFar(p.duration, 12 * y + 11)), r.yearlyIncludedKm as real)
  {
    YearChargedKmTelescopes(p, r, y, 12);
    KmDrivenCountsLeasedMonths(p.duration, MonthlyKm(r), 12 * y + 11);
  }

  // ---------------------------------------------------------------------
  // The March refunds

  /** Chart month `i`'s refund in twelfths of the yearly refund: the
      leased months of the lease year it refunds. */
  function RefundTwelfths(d: int, i: int): (t: int)
    ensures 0 <= t
  {
    if RefundDue(d, i) then LeasedMonths(d, i / 12 - 1) else 0
  }

  /** The twelfths refunded in chart months 0 to `n - 1`. */
  function RefundTwelfthsUpTo(d: int, n: int): (t: int)
    ensures 0 <= t
    decreases n
  {
    if n <= 0 then 0 else RefundTwelfthsUpTo(d, n - 1) + RefundTwelfths(d, n - 1)
  }

  /** The lease years whose March refund falls before chart month `n`:
      lease year `y` is refunded in month `12 * y + 14`. */
  function RefundedYears(d: int, n: int): int
  {
    CalendarProperties.MinInt(Ceil12(d), MaxInt(0, (n - 3) / 12))
  }

  lemma DivBy12(a: int, q: int, c: int)
    requires a == 12 * q + c && 0 <= c < 12
    ensures a / 12 == q && a % 12 == c
  {
  }

  /** The refunds before chart month `n` cover the leased months of the
      lease years refunded by then: every refunded year but the last is a
      full twelve months. */
  lemma {:induction false} RefundTwelfthsClosedForm(d: int, n: int)
    requires 0 <= d && 0 <= n
    ensures RefundTwelfthsUpTo(d, n) == CalendarProperties.MinInt(d, 12 * RefundedYears(d, n))
  {
    if n > 0 {
      var i := n - 1;
      RefundTwelfthsClosedForm(d, i);
      var q := i / 12;
      var c := i % 12;
      DivBy12(i, q, c);
      if c == 2 {
        DivBy12(i - 2, q, 0);
        DivBy12(i - 3, q - 1, 11);
        if q == 0 {
          assert RefundTwelfths(d, i) == 0 && RefundedYears(d, n) == 0;
        } else if q - 1 >= Ceil12(d) {
          assert RefundTwelfths(d, i) == 0;
          assert RefundedYears(d, n) == Ceil12(d) == RefundedYears(d, i);
        } else {
          assert 12 * (q - 1) < d;
          assert RefundTwelfths(d, i) == CalendarProperties.MinInt(12, d - 12 * (q - 1));
          assert RefundedYears(d, n) == q && RefundedYears(d, i) == q - 1;
        }
      } else {
        if c < 2 {
          DivBy12(i - 2, q - 1, c + 10);
          DivBy12(i - 3, q - 1, c + 9);
        } else {
          DivBy12(i - 2, q, c - 2);
          DivBy12(i - 3, q, c - 3);
        }
        assert RefundTwelfths(d, i) == 0;
        assert RefundedYears(d, n) == RefundedYears(d, i);
      }
    }
  }

  /** As written, the chart ends at month `duration + 12`: when
      `duration % 12 == 1` the last lease year's refund, due in month
      `duration + 13`, falls outside it. */
  lemma ChartRefundTwelfthsAsWritten(d: int)
    requires 0 <= d
    ensures RefundTwelfthsUpTo(d, d + 13) == (if d % 12 == 1 then d - 1 else d)
  {
    RefundTwelfthsClosedForm(d, d + 13);
    DivBy12(d, d / 12, d % 12);
    if d % 12 == 0 {
      DivBy12(d + 10, d / 12, 10);
    } else if d % 12 == 1 {
      DivBy12(d + 10, d / 12, 11);
    } else {
      DivBy12(d + 10, d / 12 + 1, d % 12 - 2);
    }
  }

  /** With one more month the chart refunds every leased month. */
  lemma ChartRefundTwelfthsIntended(d: int)
    requires 0 <= d
    ensures RefundTwelfthsUpTo(d, d + 14) == d
  {
    RefundTwelfthsClosedForm(d, d + 14);
  }

  /** The sum of a series. */
  function Total(s: seq<real>): real
    decreases |s|
  {
    if |s| == 0 then 0.0 else Total(s[..|s| - 1]) + s[|s| - 1]
  }

  lemma TotalAppend(s: seq<real>, x: real)
    ensures Total(s + [x]) == Total(s) + x
  {
    assert (s + [x])[..|s|] == s;
  }

  /** A series holding `v` in months 1 to `d` and nothing elsewhere sums
      to `v` for each of those months it reaches. */
  lemma {:induction false} InTermTotal(s: seq<real>, d: int, v: real)
    requires 0 <= d
    requires forall k :: 0 <= k < |s| ==> s[k] == (if 1 <= k <= d then v else 0.0)
    ensures Total(s) == Times(v, CalendarProperties.MinInt(d, MaxInt(0, |s| - 1)))
  {
    if |s| > 0 {
      var prefix := s[..|s| - 1];
      InTermTotal(prefix, d, v);
      var before := CalendarProperties.MinInt(d, MaxInt(0, |prefix| - 1));
      if 1 <= |s| - 1 <= d {
        assert CalendarProperties.MinInt(d, MaxInt(0, |s| - 1)) == before + 1;
      }
    }
  }

  /** A series holding `v` in month 0 only sums to `v`. */
  lemma {:induction false} FirstOnlyTotal(s: seq<real>, v: real)
    requires 0 < |s|
    requires forall k :: 0 <= k < |s| ==> s[k] == (if k == 0 then v else 0.0)
    ensures Total(s) == v
  {
    if |s| > 1 {
      FirstOnlyTotal(s[..|s| - 1], v);
    } else {
      assert s[..0] == [];
    }
  }

  /** The down payment is charged in month 0 only, and the monthly rate
      and the monthly insurance in months 1 to `duration` only. */
  lemma LeaseAndInsuranceSeries(p: Params)
    requires 0 <= p.duration
    ensures HasLength(Chart(p), Points(p))
    ensures forall k :: 0 <= k < Points(p) ==>
      Chart(p).oneTimeCosts[k] == (if k == 0 then p.oneTime else 0.0)
      && Chart(p).monthlyCosts[k] == (if 1 <= k <= p.duration then p.monthly else 0.0)
      && Chart(p).insuranceCosts[k] == (if 1 <= k <= p.duration then p.insuranceCost / 12.0 else 0.0)
  {
    ChartLength(p, RatesOf(p), Points(p));
    forall k | 0 <= k < Points(p)
      ensures Chart(p).oneTimeCosts[k] == (if k == 0 then p.oneTime else 0.0)
      ensures Chart(p).monthlyCosts[k] == (if 1 <= k <= p.duration then p.monthly else 0.0)
      ensures Chart(p).insuranceCosts[k] == (if 1 <= k <= p.duration then p.insuranceCost / 12.0 else 0.0)
    {
      ChartSeries(p, k);
    }
  }

  lemma LeasingSum(p: Params, x: real, y: real)
    requires 0 <= p.duration && x == p.oneTime && y == Times(p.monthly, p.duration)
    ensures x + y == LegacyProjection.TotalLeasing(p)
  {
    TimesIsProduct(p.monthly, p.duration);
  }

  /** Over the chart, the down payment and the monthly rates add up to
      the leasing cost of the cost summary. */
  lemma ChartLeasingMatchesSummary(p: Params)
    requires 0 <= p.duration
    ensures Total(Chart(p).oneTimeCosts) + Total(Chart(p).monthlyCosts) == LegacyProjection.TotalLeasing(p)
  {
    LeaseAndInsuranceSeries(p);
    var c, months := Chart(p), p.duration;
    FirstOnlyTotal(c.oneTimeCosts, p.oneTime);
    assert CalendarProperties.MinInt(months, MaxInt(0, Points(p) - 1)) == months;
    InTermTotal(c.monthlyCosts, months, p.monthly);
    LeasingSum(p, Total(c.oneTimeCosts), Total(c.monthlyCosts));
  }

  /** Over the chart, the monthly insurance adds up to the insurance cost
      of the cost summary. */
  lemma ChartInsuranceMatchesSummary(p: Params)
    requires 0 <= p.duration
    ensures Total(Chart(p).insuranceCosts) == LegacyProjection.TotalInsuranceCost(p)
  {
    LeaseAndInsuranceSeries(p);
    var c, months := Chart(p), p.duration;
    assert CalendarProperties.MinInt(months, MaxInt(0, Points(p) - 1)) == months;
    InTermTotal(c.insuranceCosts, months, p.insuranceCost / 12.0);
    LegacyProjection.PremiumInTwelfths(p, Total(c.insuranceCosts));
  }

  /** `months` twelfths of a yearly amount, as shares of a twelfth. */
  lemma TwelfthsAsShares(x: real, yearly: real, months: int, shares: int)
    requires 0 <= months && shares == months && x == yearly * (months as real / 12.0)
    ensures x == Times(yearly / 12.0, shares)
  {
    TimesIsProduct(yearly / 12.0, months);
  }

  /** A chart month's refund is its refunded twelfths of the yearly refund. */
  lemma RefundAtInShares(p: Params, r: Rates, i: int)
    ensures RefundAt(p, r, i) == Times(r.yearlyTaxReturn / 12.0, RefundTwelfths(p.duration, i))
  {
    if RefundDue(p.duration, i) {
      TwelfthsAsShares(RefundAt(p, r, i), r.yearlyTaxReturn, LeasedMonths(p.duration, i / 12 - 1),
        RefundTwelfths(p.duration, i));
    }
  }

  /** The refund series: a refund is entered only in a March (`k % 12 == 2`)
      of chart year 1 or later whose previous year is one of the
      `ceil(duration / 12)` lease years, and there it is the yearly refund
      prorated by that lease year's leased months (at most 12), entered as
      a negative amount. */
  lemma RefundSchedule(p: Params, k: int)
    requires 0 <= k < Points(p)
    ensures k < |Chart(p).taxReturns|
    ensures Chart(p).taxReturns[k] != 0.0 ==> k % 12 == 2 && k / 12 >= 1 && k / 12 - 1 < Ceil12(p.duration)
    ensures k % 12 == 2 && k / 12 >= 1 && k / 12 - 1 < Ceil12(p.duration) ==>
      Chart(p).taxReturns[k]
      == -(RatesOf(p).yearlyTaxReturn * (LeasedMonths(p.duration, k / 12 - 1) as real / 12.0))
    ensures LeasedMonths(p.duration, k / 12 - 1)
      == CalendarProperties.MinInt(12, MaxInt(0, p.duration - 12 * (k / 12 - 1)))
  {
    RefundEntry(p, k);
    RefundAtSchedule(p, RatesOf(p), k);
  }

  /** Entry `k` of the refund series is chart month `k`'s refund, negated. */
  lemma RefundEntry(p: Params, k: int)
    requires 0 <= k < Points(p)
    ensures k < |Chart(p).taxReturns| && Chart(p).taxReturns[k] == -RefundAt(p, RatesOf(p), k)
  {
    ChartSeries(p, k);
  }

  /** Month `i`'s refund, for any rates `r`: nothing unless it is due, and
      when due the yearly refund prorated by the refunded year's leased months. */
  lemma RefundAtSchedule(p: Params, r: Rates, i: int)
    ensures RefundAt(p, r, i) != 0.0 ==> i % 12 == 2 && i / 12 >= 1 && i / 12 - 1 < Ceil12(p.duration)
    ensures i % 12 == 2 && i / 12 >= 1 && i / 12 - 1 < Ceil12(p.duration) ==>
      RefundAt(p, r, i) == r.yearlyTaxReturn * (LeasedMonths(p.duration, i / 12 - 1) as real / 12.0)
  {
  }

  /** One more chart month appends its refund, negated, to the refund
      series. */
  lemma TaxReturnsStep(p: Params, r: Rates, k: int)
    requires 0 <= k
    ensures ChartUpTo(p, r, k + 1).taxReturns == ChartUpTo(p, r, k).taxReturns + [-RefundAt(p, r, k)]
  {
  }

  /** The refund series of the first `n` chart months sums to minus the
      refunded twelfths of the yearly refund. */
  lemma {:induction false} TaxReturnsTotal(p: Params, r: Rates, n: int)
    requires 0 <= p.duration && 0 <= n
    ensures Total(ChartUpTo(p, r, n).taxReturns)
      == -Times(r.yearlyTaxReturn / 12.0, RefundTwelfthsUpTo(p.duration, n))
  {
    if n > 0 {
      var k := n - 1;
      TaxReturnsTotal(p, r, k);
      TaxReturnsStep(p, r, k);
      TotalAppend(ChartUpTo(p, r, k).taxReturns, -RefundAt(p, r, k));
      RefundAtInShares(p, r, k);
      TimesSplit(r.yearlyTaxReturn / 12.0, RefundTwelfthsUpTo(p.duration, n),
        RefundTwelfthsUpTo(p.duration, k), RefundTwelfths(p.duration, k));
      assert Total(ChartUpTo(p, r, n).taxReturns) == Total(ChartUpTo(p, r, k).taxReturns) - RefundAt(p, r, k);
    } else {
      assert ChartUpTo(p, r, n).taxReturns == [];
    }
  }

  /** As written, the chart's refunds add up to every leased month's
      twelfth of the yearly refund except, when `duration % 12 == 1`, the
      last lease year's single month. */
  lemma ChartRefundsAsWritten(p: Params)
    requires 0 <= p.duration
    ensures Total(Chart(p).taxReturns)
      == -Times(RatesOf(p).yearlyTaxReturn / 12.0, if p.duration % 12 == 1 then p.duration - 1 else p.duration)
  {
    TaxReturnsTotal(p, RatesOf(p), Points(p));
    ChartRefundTwelfthsAsWritten(p.duration);
  }

  /** A 13-month lease refunding 120 a year: the chart shows 120 of
      refunds, while the cost summary counts 130. */
  lemma DroppedRefundExample(p: Params)
    requires p.duration == 13 && p.officeKm == 1.0 && p.taxOfficeDays == 60 && p.taxReturn == 1.0
    ensures Total(Chart(p).taxReturns) == -120.0
    ensures LegacyProjection.TaxReturnAmount(p) == 130.0
  {
    ChartRefundsAsWritten(p);
    assert RatesOf(p).yearlyTaxReturn == 120.0;
    TimesIsProduct(10.0, 12);
  }

  /** The chart as intended: one more month, to `duration + 13`, so that
      the March after the last lease year is shown. */
  function IntendedPoints(p: Params): int
  {
    if p.duration + 13 >= 0 then p.duration + 14 else 0
  }

  function IntendedChart(p: Params): ChartData
  {
    ChartUpTo(p, RatesOf(p), IntendedPoints(p))
  }

  /** The intended chart refunds every leased month, and its refunds add
      up to the tax return of the cost summary. */
  lemma IntendedChartRefundsAll(p: Params)
    requires 0 <= p.duration
    ensures Total(IntendedChart(p).taxReturns) == -Times(RatesOf(p).yearlyTaxReturn / 12.0, p.duration)
    ensures Total(IntendedChart(p).taxReturns) == -LegacyProjection.TaxReturnAmount(p)
  {
    TaxReturnsTotal(p, RatesOf(p), IntendedPoints(p));
    ChartRefundTwelfthsIntended(p.duration);
    RefundsMatchSummary(p);
  }

  /** Every leased month's twelfth of the yearly refund is the tax
      return of the cost summary. */
  lemma RefundsMatchSummary(p: Params)
    requires 0 <= p.duration
    ensures Times(RatesOf(p).yearlyTaxReturn / 12.0, p.duration) == LegacyProjection.TaxReturnAmount(p)
  {
    Regroup(LegacyProjection.TaxReturnAmount(p), LegacyProjection.YearlyTaxOfficeKm(p), p.taxReturn,
      LegacyProjection.Years(p), RatesOf(p).yearlyTaxReturn, p.duration as real / 12.0);
    TwelfthsAsShares(LegacyProjection.TaxReturnAmount(p), RatesOf(p).yearlyTaxReturn, p.duration, p.duration);
  }

  /** The refund over `years` of a yearly distance at a rate per
      kilometre is the yearly refund over the same years. */
  lemma Regroup(x: real, yearlyKm: real, rate: real, years: real, yearly: real, share: real)
    requires x == (yearlyKm * years) * rate && yearly == yearlyKm * rate && share == years
    ensures x == yearly * share
  {
  }
}
