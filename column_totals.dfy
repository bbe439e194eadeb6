/** The calendar-aware projector's extra-kilometre and refund columns
    (src/components/ResultsSection.jsx) set against the aggregates they
    are meant to add up to, and a settlement rule for the overage whose
    column does add up to `extraKmCost`. */
module ColumnTotals {
  import opened Coercion
  import opened Shares
  import opened CalendarProjection
  import opened CalendarProperties
  import LegacyProjection

  // ---------------------------------------------------------------------
  // The columns as written

  /** A two-month first year: the first December is charged a whole
      year's overage and the final month another twelfth, 13000 in all,
      while the aggregate charges the three months' share, 3000. */
  lemma ExtraKmColumnExample(p: Params)
    requires p.startMonth == 11 && p.duration == 3 && p.fixedKm == 12000 && p.officeDays == 0
    requires p.included == 0 && p.extraCost == 1.0
    ensures ExtraKmCharge(p, 2) == 12000.0 && ExtraKmCharge(p, 3) == 1000.0
    ensures SumOf(Breakdown(p), ExtraKmOf) == 13000.0
    ensures ExtraKmCost(p) == 3000.0
  {
    var bd := Breakdown(p);
    assert bd[0].extraKmCost == 0.0 && bd[1].extraKmCost == 12000.0;
    assert bd[2].extraKmCost == 1000.0 && bd[3].extraKmCost == 0.0;
    assert bd[..1][..0] == [] && bd[..2][..1] == bd[..1] && bd[..3][..2] == bd[..2] && bd[..3] == bd[..|bd| - 1];
    assert SumOf(bd[..1], ExtraKmOf) == 0.0;
    assert SumOf(bd[..2], ExtraKmOf) == 12000.0;
    assert SumOf(bd[..3], ExtraKmOf) == 13000.0;
  }

  /** A lease of February and March: the March entry refunds the whole
      yearly amount, 720, while the aggregate refund is two twelfths of
      it, 120. */
  lemma RefundColumnExample(p: Params)
    requires p.startMonth == 2 && p.duration == 2
    requires p.officeKm == 1.0 && p.taxOfficeDays == 360 && p.taxReturn == 1.0
    ensures TaxReturnPerYear(p) == 720.0
    ensures SumOf(Breakdown(p), RefundOf) == 720.0
    ensures TotalTaxReturn(p) == 120.0
  {
    var bd := Breakdown(p);
    assert bd[0].taxReturn == 0.0 && bd[1].taxReturn == 720.0 && bd[2].taxReturn == 0.0;
    assert bd[..1][..0] == [] && bd[..2][..1] == bd[..1] && bd[..2] == bd[..|bd| - 1];
    assert SumOf(bd[..1], RefundOf) == 0.0;
    assert SumOf(bd[..2], RefundOf) == 720.0;
  }

  /** A lease from May to October has no March at all, so its refund
      column is empty while the aggregate refunds half a year: no rule
      that pays only in in-term Marches can match the aggregate. */
  lemma NoMarchExample(p: Params)
    requires p.startMonth == 5 && p.duration == 6
    requires p.officeKm == 1.0 && p.taxOfficeDays == 360 && p.taxReturn == 1.0
    ensures forall k :: 0 <= k < |Breakdown(p)| ==> Breakdown(p)[k].taxReturn == 0.0
    ensures TotalTaxReturn(p) == 360.0
  {
    forall k | 0 <= k < |Breakdown(p)|
      ensures Breakdown(p)[k].taxReturn == 0.0
    {
      assert Breakdown(p)[k] == Entry(p, k + 1);
      assert 5 <= CalendarMonth(p, k + 1) <= 11;
    }
  }

  // ---------------------------------------------------------------------
  // Settling the overage by the months each settlement covers

  /** Breakdown month `month` settles overage: an in-term December or the
      final lease month. */
  predicate Settles(p: Params, month: int)
  {
    (CalendarMonth(p, month) == 12 && month <= p.duration) || month == p.duration
  }

  /** The lease months of a settlement's calendar year up to and including
      it: from January, or from the start month in the first year. */
  function SettledMonths(p: Params, month: int): int
  {
    MinInt(month, CalendarMonth(p, month))
  }

  /** Corrected rule: a settlement charges the overage of the months it
      covers, the yearly distance and allowance both prorated by them. */
  function IntendedOverKm(p: Params, month: int): real
  {
    if Settles(p, month) then YearOverKm(p, SettledMonths(p, month) as real / 12.0) else 0.0
  }

  function IntendedExtraKmCharge(p: Params, month: int): real
  {
    IntendedOverKm(p, month) * p.extraCost
  }

  /** The corrected overage and charge columns, month by month. */
  function OverKmColumn(p: Params): int -> real
  {
    month => IntendedOverKm(p, month)
  }

  function ChargeColumn(p: Params): int -> real
  {
    month => IntendedExtraKmCharge(p, month)
  }

  /** The corrected overage of breakdown months 1..`n`. */
  function IntendedOverKmUpTo(p: Params, n: int): real
  {
    SumTo(OverKmColumn(p), n)
  }

  /** The corrected extra-kilometre column summed over months 1..`n`. */
  function IntendedExtraKmUpTo(p: Params, n: int): real
  {
    SumTo(ChargeColumn(p), n)
  }

  /** Months settled in breakdown month `month`. */
  function CoveredMonths(p: Params, month: int): int
  {
    if Settles(p, month) then SettledMonths(p, month) else 0
  }

  function CoveredUpTo(p: Params, n: int): int
    decreases n
  {
    if n <= 0 then 0 else CoveredUpTo(p, n - 1) + CoveredMonths(p, n)
  }

  /** Lease months since the last settlement, after month `n`. */
  function Pending(p: Params, n: int): int
  {
    if n <= 0 || Settles(p, n) then 0 else SettledMonths(p, n)
  }

  /** Calendar months advance by one per breakdown month, from the start
      month, December wrapping to January. */
  lemma CalendarMonthStep(p: Params, n: int)
    requires 1 <= p.startMonth <= 12 && 1 <= n
    ensures 1 <= CalendarMonth(p, n) <= 12
    ensures n == 1 ==> CalendarMonth(p, n) == p.startMonth
    ensures 2 <= n ==>
      CalendarMonth(p, n) == if CalendarMonth(p, n - 1) == 12 then 1 else CalendarMonth(p, n - 1) + 1
  {
    var o := p.startMonth - 1 + n - 1;
    assert JsRem12(o) == o % 12;
    if 2 <= n {
      assert JsRem12(o - 1) == (o - 1) % 12;
      NextMonthIndex(o - 1);
    }
  }

  /** Every lease month up to `n` is either settled or pending. */
  lemma {:induction false} CoveredPlusPending(p: Params, n: int)
    requires 1 <= p.startMonth <= 12 && 0 <= n <= p.duration
    ensures CoveredUpTo(p, n) + Pending(p, n) == n
  {
    if 1 <= n {
      CoveredPlusPending(p, n - 1);
      CalendarMonthStep(p, n);
      if 2 <= n {
        CalendarMonthStep(p, n - 1);
      }
      assert Pending(p, n - 1) + 1 == SettledMonths(p, n);
    }
  }

  /** The settlements together cover every month of the lease once. */
  lemma CoveredOverTerm(p: Params)
    requires 1 <= p.startMonth <= 12 && 1 <= p.duration
    ensures CoveredUpTo(p, p.duration) == p.duration
  {
    CoveredPlusPending(p, p.duration);
  }

  /** The overage of `k` twelfths of a year is `k` twelfths of the full
      year's overage. */
  lemma TwelfthsOverage(over: real, driven: real, included: real, k: int, full: real, share: real)
    requires 1 <= k && over == Max(0.0, driven * (k as real / 12.0) - included * (k as real / 12.0))
    requires full == Max(0.0, driven - included) && share == Times(full / 12.0, k)
    ensures over == share
  {
    LegacyProjection.ScaledOverage(driven, included, k as real / 12.0, full);
    LegacyProjection.TwelfthsOfFull(full, k, k as real / 12.0, share);
  }

  /** A month's corrected overage is its covered months' twelfths of a
      full year's overage. */
  lemma MonthOverKmIsShare(p: Params, month: int)
    requires 1 <= p.startMonth <= 12 && 1 <= month
    ensures 0 <= CoveredMonths(p, month)
    ensures IntendedOverKm(p, month) == Times(LegacyProjection.FullYearOverage(p) / 12.0, CoveredMonths(p, month))
  {
    CalendarMonthStep(p, month);
    if Settles(p, month) {
      LegacyProjection.YearlyDistance(p);
      TwelfthsOverage(IntendedOverKm(p, month), TotalKmPerYear(p), p.included as real, SettledMonths(p, month),
        LegacyProjection.FullYearOverage(p), Times(LegacyProjection.FullYearOverage(p) / 12.0, CoveredMonths(p, month)));
    }
  }

  lemma {:induction false} OverKmUpToIsShare(p: Params, n: int)
    requires 1 <= p.startMonth <= 12 && 0 <= n
    ensures 0 <= CoveredUpTo(p, n)
    ensures IntendedOverKmUpTo(p, n) == Times(LegacyProjection.FullYearOverage(p) / 12.0, CoveredUpTo(p, n))
  {
    if 0 < n {
      OverKmUpToIsShare(p, n - 1);
      MonthOverKmIsShare(p, n);
      TimesAdd(LegacyProjection.FullYearOverage(p) / 12.0, CoveredUpTo(p, n - 1), CoveredMonths(p, n));
    }
  }

  /** Each month's corrected charge is its corrected overage at the rate. */
  lemma MonthlyChargesAtRate(p: Params, n: int)
    ensures forall k :: 1 <= k <= n ==> ChargeColumn(p)(k) == OverKmColumn(p)(k) * p.extraCost
  {
  }

  /** Pricing each settlement separately costs what the settled kilometres
      cost together. */
  lemma ChargesAtRate(p: Params, n: int)
    ensures IntendedExtraKmUpTo(p, n) == IntendedOverKmUpTo(p, n) * p.extraCost
  {
    MonthlyChargesAtRate(p, n);
    SumToAtRate(OverKmColumn(p), ChargeColumn(p), p.extraCost, n,
      IntendedOverKmUpTo(p, n), IntendedExtraKmUpTo(p, n));
  }

  /** The term's aggregate overage is `duration` twelfths of a full
      year's overage. */
  lemma TermOverageInTwelfths(p: Params)
    requires 1 <= p.duration
    ensures ExtraKm(p) == Times(LegacyProjection.FullYearOverage(p) / 12.0, p.duration)
  {
    LegacyProjection.TermOverageAsShare(p);
    LegacyProjection.TwelfthsOfFull(LegacyProjection.FullYearOverage(p), p.duration, DurationInYears(p),
      Times(LegacyProjection.FullYearOverage(p) / 12.0, p.duration));
  }

  /** Over the whole term the corrected settlements charge every lease
      month's twelfth of a full year's overage exactly once. */
  lemma OverKmOverTerm(p: Params)
    requires 1 <= p.startMonth <= 12 && 1 <= p.duration
    ensures IntendedOverKmUpTo(p, p.duration) == Times(LegacyProjection.FullYearOverage(p) / 12.0, p.duration)
  {
    CoveredOverTerm(p);
    OverKmUpToIsShare(p, p.duration);
  }

  /** Under the corrected rule the settlements of the term add up to the
      aggregate `extraKm`. */
  lemma IntendedOverKmTotal(p: Params)
    requires 1 <= p.startMonth <= 12 && 1 <= p.duration
    ensures IntendedOverKmUpTo(p, p.duration) == ExtraKm(p)
  {
    OverKmOverTerm(p);
    TermOverageInTwelfths(p);
  }

  /** Under the corrected rule the extra-kilometre column over the whole
      breakdown adds up to the aggregate `extraKmCost`: the trailing month
      settles nothing more. */
  lemma IntendedExtraKmTotal(p: Params)
    requires 1 <= p.startMonth <= 12 && 1 <= p.duration
    ensures IntendedExtraKmUpTo(p, p.duration + 1) == ExtraKmCost(p)
  {
    IntendedOverKmTotal(p);
    assert IntendedOverKm(p, p.duration + 1) == 0.0;
    ChargesAtRate(p, p.duration + 1);
    EqualTimes(IntendedOverKmUpTo(p, p.duration + 1), ExtraKm(p), p.extraCost);
  }

  /** The correction only touches the first calendar year: from the
      twelfth month on, a settlement covers the months the code charges
      for. */
  lemma ChargesAgreeAfterFirstYear(p: Params, month: int)
    requires 1 <= p.startMonth <= 12 && 12 <= month
    ensures IntendedExtraKmCharge(p, month) == ExtraKmCharge(p, month)
  {
    CalendarMonthStep(p, month);
    if month == p.duration {
      EndDateIsMonthAfterFinal(p);
      assert SettledMonths(p, month) == FinalLeaseMonth(p);
    } else if Settles(p, month) {
      assert SettledMonths(p, month) as real / 12.0 == ExtraKmYearFraction(p, month);
    }
  }
}
