/** What the calendar-aware projector (src/components/ResultsSection.jsx)
    guarantees about its breakdown and aggregates. */
module CalendarProperties {
  import opened Coercion
  import opened CalendarProjection

  // Field selectors, for summing one column of the breakdown.
  function TotalOf(e: MonthEntry): real { e.totalCost }
  function LeasingOf(e: MonthEntry): real { e.leasingCost }
  function OneTimeOf(e: MonthEntry): real { e.oneTimePayment }
  function InsuranceOf(e: MonthEntry): real { e.insuranceCost }
  function EnergyOf(e: MonthEntry): real { e.energyCost }
  function ExtraKmOf(e: MonthEntry): real { e.extraKmCost }
  function RefundOf(e: MonthEntry): real { e.taxReturn }

  /** Sum of one column over a run of entries. */
  function SumOf(s: seq<MonthEntry>, f: MonthEntry -> real): real
    decreases |s|
  {
    if s == [] then 0.0 else SumOf(s[..|s| - 1], f) + f(s[|s| - 1])
  }

  function MinInt(a: int, b: int): int { if a <= b then a else b }

  /** A zero duration yields the zeroed result with an empty breakdown. */
  lemma ZeroDurationIsZeroed(p: Params)
    requires p.duration == 0
    ensures var c := Projection(p);
      && c.monthlyBreakdown == []
      && c.duration == 0 && c.totalKmPerYear == 0.0 && c.totalKmLeasingPeriod == 0.0
      && c.includedKmLeasingPeriod == 0.0 && c.extraKm == 0.0 && c.extraKmCost == 0.0
      && c.taxOfficeKmPerYear == 0.0 && c.taxReturnPerYear == 0.0 && c.totalTaxReturn == 0.0
      && c.energyCostPerKm == 0.0 && c.totalEnergyCost == 0.0 && c.totalInsuranceCost == 0.0
      && c.leasingCost == 0.0 && c.totalCostBeforeTax == 0.0 && c.totalCostAfterTax == 0.0
      && c.monthlyCostBeforeTax == 0.0 && c.monthlyCostAfterTax == 0.0
      && c.costPerKmBeforeTax == 0.0 && c.costPerKmAfterTax == 0.0
  {
  }

  /** The result of `calculateCosts` for a non-zero duration: the breakdown
      and the aggregates, each named. */
  lemma ProjectionParts(p: Params)
    requires p.duration != 0
    ensures var c := Projection(p);
      && c.monthlyBreakdown == Breakdown(p)
      && c.duration == p.duration
      && c.totalKmPerYear == TotalKmPerYear(p)
      && c.totalKmLeasingPeriod == TotalKmLeasingPeriod(p)
      && c.includedKmLeasingPeriod == IncludedKmLeasingPeriod(p)
      && c.extraKm == ExtraKm(p) && c.extraKmCost == ExtraKmCost(p)
      && c.taxReturnPerYear == TaxReturnPerYear(p) && c.totalTaxReturn == TotalTaxReturn(p)
      && c.totalEnergyCost == TotalEnergyCost(p)
      && c.totalInsuranceCost == InsuranceUpTo(p, p.duration)
      && c.leasingCost == LeasingCost(p)
  {
  }

  /** For a positive duration the breakdown has `duration + 1` entries,
      numbered 1..duration+1, and only the last lies after the lease. A
      negative duration (not guarded against) yields no entries at all. */
  lemma BreakdownShape(p: Params)
    requires p.duration != 0
    ensures var bd := Projection(p).monthlyBreakdown;
      && (p.duration >= 1 ==> |bd| == p.duration + 1)
      && (p.duration <= -1 ==> bd == [])
      && (forall k :: 0 <= k < |bd| ==> bd[k].month == k + 1)
      && (forall k :: 0 <= k < |bd| ==> (bd[k].isAfterLeasing <==> k == p.duration))
  {
    ProjectionParts(p);
  }

  /** One month past `o` months since a January: December wraps to
      January of the next year. */
  lemma NextMonthIndex(o: int)
    requires 0 <= o
    ensures (o + 1) % 12 == if o % 12 == 11 then 0 else o % 12 + 1
    ensures (o + 1) / 12 == if o % 12 == 11 then o / 12 + 1 else o / 12
  {
  }

  /** Every entry resolves to a calendar month in 1..12, at the right
      distance from the start month; consecutive entries are consecutive
      calendar months, December wrapping to January of the next year. */
  lemma CalendarResolution(p: Params, k: int)
    requires p.startMonth >= 1
    requires 0 <= k < |Breakdown(p)|
    ensures var e := Breakdown(p)[k];
      && 1 <= e.currentMonth <= 12
      && e.currentYear * 12 + e.currentMonth - 1 == p.startYear * 12 + p.startMonth - 1 + e.month - 1
    ensures var bd := Breakdown(p);
      k + 1 < |bd| ==>
        if bd[k].currentMonth == 12 then bd[k + 1].currentMonth == 1 && bd[k + 1].currentYear == bd[k].currentYear + 1
        else bd[k + 1].currentMonth == bd[k].currentMonth + 1 && bd[k + 1].currentYear == bd[k].currentYear
  {
    var o := p.startMonth - 1 + k;
    assert o >= 0;
    assert Breakdown(p)[k] == Entry(p, k + 1);
    if k + 1 < |Breakdown(p)| {
      assert Breakdown(p)[k + 1] == Entry(p, k + 2);
      NextMonthIndex(o);
    }
  }

  /** `endMonth`/`endYear` denote the month after the final lease month,
      whereas the final-month `yearFraction` uses the final lease month
      itself; for a lease started in a valid month the two are one calendar
      month apart. */
  lemma EndDateIsMonthAfterFinal(p: Params)
    requires 1 <= p.startMonth && 1 <= p.duration
    ensures EndMonth(p) == CalendarMonth(p, p.duration + 1)
    ensures EndYear(p) == CalendarYear(p, p.duration + 1)
    ensures FinalLeaseMonth(p) == CalendarMonth(p, p.duration)
    ensures if FinalLeaseMonth(p) == 12
            then EndMonth(p) == 1 && EndYear(p) == CalendarYear(p, p.duration) + 1
            else EndMonth(p) == FinalLeaseMonth(p) + 1 && EndYear(p) == CalendarYear(p, p.duration)
  {
    var o := p.startMonth - 1 + p.duration - 1;
    NextMonthIndex(o);
  }

  /** Each entry's total is its charges minus its refund, and its
      cumulative cost is the sum of the totals of entries 1..k+1. */
  lemma {:induction false} CumulativeIsRunningSum(p: Params, k: int)
    requires 0 <= k < |Breakdown(p)|
    ensures var bd := Breakdown(p);
      && bd[k].totalCost == bd[k].leasingCost + bd[k].oneTimePayment + bd[k].insuranceCost
                            + bd[k].energyCost + bd[k].extraKmCost - bd[k].taxReturn
      && bd[k].cumulativeCost == SumOf(bd[..k + 1], TotalOf)
  {
    var bd := Breakdown(p);
    assert bd[k] == Entry(p, k + 1);
    assert bd[..k + 1][..k] == bd[..k];
    if k == 0 {
      assert bd[..0] == [];
    } else {
      CumulativeIsRunningSum(p, k - 1);
    }
  }

  /** Leasing and one-time charges: the rate exactly in months
      1..duration, the one-time payment exactly in month 1. */
  lemma LeasingSchedule(p: Params, k: int)
    requires 0 <= k < |Breakdown(p)|
    ensures var e := Breakdown(p)[k];
      && e.leasingCost == (if e.month <= p.duration then p.monthly else 0.0)
      && e.oneTimePayment == (if e.month == 1 then p.oneTime else 0.0)
  {
    assert Breakdown(p)[k] == Entry(p, k + 1);
  }

  /** Each column of the breakdown is the matching scheduling rule applied
      to the entry's month. */
  lemma BreakdownColumns(p: Params)
    ensures var bd := Breakdown(p);
      forall k :: 0 <= k < |bd| ==>
        && bd[k].leasingCost == LeasingCharge(p, k + 1)
        && bd[k].oneTimePayment == OneTimeCharge(p, k + 1)
        && bd[k].insuranceCost == InsuranceCharge(p, k + 1)
        && bd[k].energyCost == EnergyCharge(p, k + 1)
  {
    var bd := Breakdown(p);
    forall k | 0 <= k < |bd|
      ensures bd[k].leasingCost == LeasingCharge(p, k + 1)
      ensures bd[k].oneTimePayment == OneTimeCharge(p, k + 1)
      ensures bd[k].insuranceCost == InsuranceCharge(p, k + 1)
      ensures bd[k].energyCost == EnergyCharge(p, k + 1)
    {
      assert bd[k] == Entry(p, k + 1);
    }
  }

  /** Summed over the first `n` entries of any run whose leasing columns
      follow the scheduling rules, the rates come to `monthly` per in-term
      month and the one-time payment appears once. */
  lemma {:induction false} LeasingPrefixSums(p: Params, s: seq<MonthEntry>, n: int)
    requires 0 <= p.duration && 0 <= n <= |s|
    requires forall k :: 0 <= k < |s| ==>
      s[k].leasingCost == LeasingCharge(p, k + 1) && s[k].oneTimePayment == OneTimeCharge(p, k + 1)
    ensures SumOf(s[..n], LeasingOf) == p.monthly * MinInt(n, p.duration) as real
    ensures SumOf(s[..n], OneTimeOf) == (if n >= 1 then p.oneTime else 0.0)
  {
    if n == 0 {
      assert s[..0] == [];
    } else {
      LeasingPrefixSums(p, s, n - 1);
      assert s[..n][..n - 1] == s[..n - 1];
      if n <= p.duration {
        assert MinInt(n, p.duration) == MinInt(n - 1, p.duration) + 1;
      }
    }
  }

  /** Over all entries the rates and the one-time payment add up to the
      aggregate `leasingCost = oneTime + monthly * duration`. */
  lemma LeasingChargesSum(p: Params)
    requires 1 <= p.duration
    ensures SumOf(Breakdown(p), LeasingOf) + SumOf(Breakdown(p), OneTimeOf) == LeasingCost(p)
  {
    BreakdownColumns(p);
    LeasingTotals(p, Breakdown(p));
  }

  lemma LeasingTotals(p: Params, s: seq<MonthEntry>)
    requires 1 <= p.duration && |s| == p.duration + 1
    requires forall k :: 0 <= k < |s| ==>
      s[k].leasingCost == LeasingCharge(p, k + 1) && s[k].oneTimePayment == OneTimeCharge(p, k + 1)
    ensures SumOf(s, LeasingOf) + SumOf(s, OneTimeOf) == LeasingCost(p)
  {
    LeasingPrefixSums(p, s, |s|);
    assert s[..|s|] == s;
  }

  /** The refund is the whole yearly amount in every in-term March and
      nothing in any other entry, the trailing one included. */
  lemma TaxRefundSchedule(p: Params, k: int)
    requires 0 <= k < |Breakdown(p)|
    ensures var e := Breakdown(p)[k];
      e.taxReturn == (if e.currentMonth == 3 && !e.isAfterLeasing then TaxReturnPerYear(p) else 0.0)
  {
    assert Breakdown(p)[k] == Entry(p, k + 1);
  }

  /** The breakdown's insurance column is the insurance rule: the start
      month pays `13 - startMonth` twelfths; a later in-term January pays
      the whole premium, or `endMonth` twelfths in the year `endYear`;
      every other entry pays nothing. */
  lemma InsuranceColumn(p: Params, k: int)
    requires 0 <= k < |Breakdown(p)|
    ensures Breakdown(p)[k].insuranceCost == InsuranceCharge(p, k + 1)
    ensures Breakdown(p)[k].month == k + 1
    ensures Breakdown(p)[k].currentMonth == CalendarMonth(p, k + 1)
    ensures Breakdown(p)[k].currentYear == CalendarYear(p, k + 1)
    ensures Breakdown(p)[k].isAfterLeasing == (k + 1 > p.duration)
  {
    var e := Breakdown(p)[k];
    assert e.insuranceCost == InsuranceCharge(p, k + 1);
  }

  /** The insurance rule read off an entry's own fields, given that its
      insurance is the rule applied to its month. */
  lemma InsuranceRuleOnEntry(p: Params, e: MonthEntry)
    requires e.insuranceCost == InsuranceCharge(p, e.month)
    requires e.currentMonth == CalendarMonth(p, e.month)
    requires e.currentYear == CalendarYear(p, e.month)
    requires e.isAfterLeasing == (e.month > p.duration)
    ensures e.insuranceCost ==
      if e.month == 1 then (p.insuranceCost / 12.0) * (13 - p.startMonth) as real
      else if e.currentMonth == 1 && !e.isAfterLeasing then
        (if e.currentYear == EndYear(p) then (p.insuranceCost / 12.0) * EndMonth(p) as real
         else p.insuranceCost)
      else 0.0
  {
  }

  /** The insurance rule read off the breakdown's own fields: the first
      entry pays the twelfths left in the start year, a January within
      the term pays the premium (only `endMonth` twelfths of it in
      `endYear`), and no other entry pays. */
  lemma InsuranceSchedule(p: Params, k: int)
    requires 0 <= k < |Breakdown(p)|
    ensures var e := Breakdown(p)[k];
      e.insuranceCost ==
        if e.month == 1 then (p.insuranceCost / 12.0) * (13 - p.startMonth) as real
        else if e.currentMonth == 1 && !e.isAfterLeasing then
          (if e.currentYear == EndYear(p) then (p.insuranceCost / 12.0) * EndMonth(p) as real
           else p.insuranceCost)
        else 0.0
  {
    InsuranceColumn(p, k);
    InsuranceRuleOnEntry(p, Breakdown(p)[k]);
  }

  lemma {:induction false} InsurancePrefixSums(p: Params, n: int)
    requires 1 <= p.duration && 0 <= n <= p.duration + 1
    ensures SumOf(Breakdown(p)[..n], InsuranceOf) == InsuranceUpTo(p, n)
  {
    var bd := Breakdown(p);
    if n == 0 {
      assert bd[..0] == [];
    } else {
      InsurancePrefixSums(p, n - 1);
      assert bd[..n][..n - 1] == bd[..n - 1];
      assert bd[n - 1] == Entry(p, n);
    }
  }

  /** `totalInsuranceCost` is the sum of the entries' insurance, over the
      in-term entries and equally over all entries (the trailing one pays
      none). */
  lemma InsuranceSum(p: Params)
    requires 1 <= p.duration
    ensures Projection(p).totalInsuranceCost == SumOf(Breakdown(p)[..p.duration], InsuranceOf)
    ensures Projection(p).totalInsuranceCost == SumOf(Breakdown(p), InsuranceOf)
  {
    var bd := Breakdown(p);
    ProjectionParts(p);
    InsurancePrefixSums(p, p.duration);
    InsurancePrefixSums(p, p.duration + 1);
    assert bd[..p.duration + 1] == bd;
  }

  lemma {:induction false} EnergyPrefixSums(p: Params, s: seq<MonthEntry>, n: int)
    requires 0 <= p.duration && 0 <= n <= |s|
    requires forall k :: 0 <= k < |s| ==> s[k].energyCost == EnergyCharge(p, k + 1)
    ensures SumOf(s[..n], EnergyOf)
         == (TotalKmPerYear(p) / 12.0 * EnergyCostPerKm(p)) * MinInt(n, p.duration) as real
  {
    if n == 0 {
      assert s[..0] == [];
    } else {
      EnergyPrefixSums(p, s, n - 1);
      assert s[..n][..n - 1] == s[..n - 1];
      if n <= p.duration {
        assert MinInt(n, p.duration) == MinInt(n - 1, p.duration) + 1;
      }
    }
  }

  lemma EnergyTotals(p: Params, s: seq<MonthEntry>)
    requires 1 <= p.duration && |s| == p.duration + 1
    requires forall k :: 0 <= k < |s| ==> s[k].energyCost == EnergyCharge(p, k + 1)
    ensures SumOf(s, EnergyOf) == TotalEnergyCost(p)
  {
    EnergyPrefixSums(p, s, |s|);
    assert s[..|s|] == s;
    var a := TotalKmPerYear(p);
    var e := EnergyCostPerKm(p);
    var d := p.duration as real;
    assert (a / 12.0 * e) * d == (a * (d / 12.0)) * e;
  }

  /** The entries' energy costs add up to the aggregate `totalEnergyCost`. */
  lemma EnergySum(p: Params)
    requires 1 <= p.duration
    ensures SumOf(Breakdown(p), EnergyOf) == TotalEnergyCost(p)
  {
    BreakdownColumns(p);
    EnergyTotals(p, Breakdown(p));
  }

  /** The extra-km rule charges only an in-term December or the final lease
      month, and never a negative amount at a non-negative rate. */
  lemma ExtraKmRule(p: Params, month: int)
    ensures ExtraKmCharge(p, month) != 0.0 ==>
      (CalendarMonth(p, month) == 12 && month <= p.duration) || month == p.duration
    ensures p.extraCost >= 0.0 ==> ExtraKmCharge(p, month) >= 0.0
  {
    if ((CalendarMonth(p, month) == 12 && month <= p.duration) || month == p.duration) && p.extraCost >= 0.0 {
      NonNegativeProduct(YearOverKm(p, ExtraKmYearFraction(p, month)), p.extraCost);
    }
  }

  lemma NonNegativeProduct(a: real, b: real)
    requires a >= 0.0 && b >= 0.0
    ensures a * b >= 0.0
  {
  }

  lemma ExtraKmColumn(p: Params, k: int)
    requires 0 <= k < |Breakdown(p)|
    ensures Breakdown(p)[k].extraKmCost == ExtraKmCharge(p, k + 1)
    ensures Breakdown(p)[k].currentMonth == CalendarMonth(p, k + 1)
    ensures Breakdown(p)[k].month == k + 1
    ensures Breakdown(p)[k].isAfterLeasing == (k + 1 > p.duration)
  {
    var e := Breakdown(p)[k];
    assert e.extraKmCost == ExtraKmCharge(p, k + 1);
    assert e.currentMonth == CalendarMonth(p, k + 1);
  }

  /** The extra-km charge falls only in an in-term December or in the
      final lease month, and is never negative for a non-negative rate. */
  lemma ExtraKmSchedule(p: Params, k: int)
    requires 0 <= k < |Breakdown(p)|
    ensures var e := Breakdown(p)[k];
      && (e.extraKmCost != 0.0 ==> (e.currentMonth == 12 && !e.isAfterLeasing) || e.month == p.duration)
      && (p.extraCost >= 0.0 ==> e.extraKmCost >= 0.0)
  {
    ExtraKmColumn(p, k);
    ExtraKmRule(p, k + 1);
  }

  /** The aggregate overage is the kilometres over the term's allowance, zero
      exactly when the term's kilometres stay within it. */
  lemma OverageAggregate(p: Params)
    ensures ExtraKm(p) >= 0.0
    ensures ExtraKm(p) == 0.0 <==> TotalKmLeasingPeriod(p) <= IncludedKmLeasingPeriod(p)
    ensures ExtraKm(p) > 0.0 ==> ExtraKm(p) == TotalKmLeasingPeriod(p) - IncludedKmLeasingPeriod(p)
  {
  }

  /** One month's extra-km charge is zero when the yearly kilometres stay
      within the yearly allowance. */
  lemma NoOverageMonth(p: Params, month: int)
    requires 1 <= p.duration && 1 <= p.startMonth
    requires TotalKmPerYear(p) <= p.included as real
    ensures ExtraKmCharge(p, month) == 0.0
  {
    var f := ExtraKmYearFraction(p, month);
    if month == p.duration {
      assert 0 <= (p.startMonth - 1) + p.duration - 1;
      assert FinalLeaseMonth(p) >= 1;
    }
    assert f >= 0.0;
    assert TotalKmPerYear(p) * f <= p.included as real * f;
    assert YearOverKm(p, f) == 0.0;
  }

  /** When the yearly kilometres stay within the yearly allowance (for a
      valid start month) neither the aggregate nor any entry carries an
      extra-km charge. */
  lemma NoOverageNoCharge(p: Params)
    requires 1 <= p.duration && 1 <= p.startMonth
    requires TotalKmPerYear(p) <= p.included as real
    ensures ExtraKm(p) == 0.0 && ExtraKmCost(p) == 0.0
    ensures forall k :: 0 <= k < |Breakdown(p)| ==> Breakdown(p)[k].extraKmCost == 0.0
  {
    var y := DurationInYears(p);
    assert y > 0.0;
    assert TotalKmPerYear(p) * y <= p.included as real * y;
    assert TotalKmLeasingPeriod(p) <= IncludedKmLeasingPeriod(p);
    forall k | 0 <= k < |Breakdown(p)|
      ensures Breakdown(p)[k].extraKmCost == 0.0
    {
      ExtraKmColumn(p, k);
      NoOverageMonth(p, k + 1);
    }
  }

  /** The totals of the summary: leasing cost, cost before and after tax,
      and the refund over the term, for any accumulated insurance and
      breakdown. */
  lemma AggregateTotals(p: Params, insurance: real, breakdown: seq<MonthEntry>)
    requires p.duration != 0
    ensures var c := Summarize(p, insurance, breakdown);
      && c.leasingCost == p.oneTime + p.monthly * p.duration as real
      && c.totalCostBeforeTax == c.leasingCost + c.extraKmCost + c.totalEnergyCost + c.totalInsuranceCost
      && c.totalCostAfterTax == c.totalCostBeforeTax - c.totalTaxReturn
      && c.totalTaxReturn == c.taxReturnPerYear * (p.duration as real / 12.0)
  {
  }

  /** The monthly averages spread each total evenly over the term. */
  lemma MonthlyAverages(p: Params, insurance: real, breakdown: seq<MonthEntry>)
    requires p.duration != 0
    ensures var c := Summarize(p, insurance, breakdown);
      && c.monthlyCostBeforeTax * p.duration as real == c.totalCostBeforeTax
      && c.monthlyCostAfterTax * p.duration as real == c.totalCostAfterTax
  {
    var c := Summarize(p, insurance, breakdown);
    DividedBack(c.totalCostBeforeTax, p.duration as real);
    DividedBack(c.totalCostAfterTax, p.duration as real);
  }

  /** The cost per kilometre spreads each total over the term's
      kilometres, and is zero when no kilometres are driven. */
  lemma CostPerKm(p: Params, insurance: real, breakdown: seq<MonthEntry>)
    requires p.duration != 0
    ensures var c := Summarize(p, insurance, breakdown);
      && (c.totalKmLeasingPeriod <= 0.0 ==> c.costPerKmBeforeTax == 0.0 && c.costPerKmAfterTax == 0.0)
      && (c.totalKmLeasingPeriod > 0.0 ==>
            c.costPerKmBeforeTax * c.totalKmLeasingPeriod == c.totalCostBeforeTax
            && c.costPerKmAfterTax * c.totalKmLeasingPeriod == c.totalCostAfterTax)
  {
    var c := Summarize(p, insurance, breakdown);
    if c.totalKmLeasingPeriod > 0.0 {
      DividedBack(c.totalCostBeforeTax, c.totalKmLeasingPeriod);
      DividedBack(c.totalCostAfterTax, c.totalKmLeasingPeriod);
    }
  }

  lemma DividedBack(x: real, n: real)
    requires n != 0.0
    ensures (x / n) * n == x
  {
  }

  /** The worked example of the documented defaults (36 months from May). */
  lemma DefaultsExample(p: Params)
    requires p.duration == 36 && p.oneTime == 5000.0 && p.monthly == 432.0
    requires p.included == 15000 && p.extraCost == 0.0824 && p.officeKm == 88.0
    requires p.officeDays == 110 && p.taxOfficeDays == 220 && p.fixedKm == 10000
    requires p.taxReturn == 0.30 && p.insuranceCost == 790.0 && p.startMonth == 5
    ensures LeasingCost(p) == 20552.0
    ensures TotalKmPerYear(p) == 29360.0
    ensures TotalKmLeasingPeriod(p) == 88080.0
    ensures IncludedKmLeasingPeriod(p) == 45000.0
    ensures ExtraKm(p) == 43080.0
    ensures ExtraKmCost(p) == 3549.792
    ensures TaxReturnPerYear(p) == 11616.0
    ensures |Breakdown(p)| == 37
    ensures Breakdown(p)[0].insuranceCost == 790.0 / 12.0 * 8.0
  {
    assert Breakdown(p)[0] == Entry(p, 1);
  }
}
