/** How much of the yearly premium the calendar-aware projector charges over
    a lease (src/components/ResultsSection.jsx, the insurance rule and its
    in-term total), counted in twelfths of the premium, and the same count
    for the final-year proration the code's comment describes. */
module InsuranceProration {
  import opened Coercion
  import opened CalendarProjection
  import opened CalendarProperties
  import opened Shares

  /** Twelfths of the premium that in-term month `month` is charged, for a
      lease whose start month lies `s` months after January and which runs
      `d` months: the start month pays the rest of its calendar year, each
      later January pays a whole year, except the January of year offset
      `ly`, which pays `lm` twelfths. */
  function ChargedTwelfths(s: int, d: int, ly: int, lm: int, month: int): int
  {
    if month == 1 then 12 - s
    else if (s + month - 1) % 12 == 0 && month <= d then
      (if (s + month - 1) / 12 == ly then lm else 12)
    else 0
  }

  /** Twelfths charged over the in-term months among 1..`n`. */
  function TwelfthsUpTo(s: int, d: int, ly: int, lm: int, n: int): int
    decreases n
  {
    if n <= 0 then 0 else TwelfthsUpTo(s, d, ly, lm, n - 1) + ChargedTwelfths(s, d, ly, lm, n)
  }

  lemma {:induction false} TwelfthsUpToNonNegative(s: int, d: int, ly: int, lm: int, n: int)
    requires s < 12 && 0 <= lm
    ensures TwelfthsUpTo(s, d, ly, lm, n) >= 0
  {
    if n > 0 {
      TwelfthsUpToNonNegative(s, d, ly, lm, n - 1);
    }
  }

  /** A sum of monthly amounts that are each the month's twelfths of `r`
      is the total of the twelfths of `r`. */
  lemma {:induction false} ScaledTwelfths(f: int -> real, s: int, d: int, ly: int, lm: int, r: real, n: int)
    requires s < 12 && 0 <= lm
    requires forall m :: 1 <= m <= n ==> f(m) == Times(r, ChargedTwelfths(s, d, ly, lm, m))
    ensures SumReal(f, n) == Times(r, TwelfthsUpTo(s, d, ly, lm, n))
  {
    if n > 0 {
      ScaledTwelfths(f, s, d, ly, lm, r, n - 1);
      TwelfthsUpToNonNegative(s, d, ly, lm, n - 1);
      TimesAdd(r, TwelfthsUpTo(s, d, ly, lm, n - 1), ChargedTwelfths(s, d, ly, lm, n));
    }
  }

  /** Up to month `n`, whose year offset is `y`, the start year is paid
      from the start month on and every later year up to `y` is paid in
      full, except that year `ly` is paid `lm` twelfths, provided no in-term
      January lies beyond year `ly`. */
  lemma {:induction false} TwelfthsPrefix(s: int, d: int, ly: int, lm: int, n: int)
    requires 0 <= s < 12 && 1 <= n <= d && (s + d - 1) / 12 <= ly
    ensures var y := (s + n - 1) / 12;
      TwelfthsUpTo(s, d, ly, lm, n) == if 1 <= y && y == ly then 12 * y - s + lm else 12 * y + 12 - s
  {
    if n == 1 {
      assert TwelfthsUpTo(s, d, ly, lm, 0) == 0;
      assert s / 12 == 0;
    } else {
      TwelfthsPrefix(s, d, ly, lm, n - 1);
      var o := s + n - 1;
      assert (o - 1) / 12 <= o / 12 <= (s + d - 1) / 12;
      if o % 12 == 0 {
        assert o / 12 == (o - 1) / 12 + 1;
      } else {
        assert o / 12 == (o - 1) / 12;
      }
    }
  }

  /** The twelfths over a whole lease of `d` months started `s` months
      after January, when the final year (offset `ly`) is the year of the
      final lease month or the one after it. */
  lemma TwelfthsOverLease(s: int, d: int, ly: int, lm: int)
    requires 0 <= s < 12 && 1 <= d
    requires ly == (s + d - 1) / 12 || ly == (s + d - 1) / 12 + 1
    ensures TwelfthsUpTo(s, d, ly, lm, d) ==
      if s + d <= 12 then 12 - s
      else if ly == (s + d - 1) / 12 then 12 * ly - s + lm
      else 12 * (ly - 1) + 12 - s
  {
    TwelfthsPrefix(s, d, ly, lm, d);
    if s + d <= 12 {
      assert (s + d - 1) / 12 == 0;
    } else {
      assert (s + d - 1) / 12 >= 1;
    }
  }

  /** Twelfths of the premium the code as written charges over a lease of
      `d` months started `s` months after January: the rest of the start
      year when the lease ends within it, `d` when its final month is a
      December, and `d + 1` otherwise. */
  function AsWrittenTwelfths(s: int, d: int): int
  {
    if s + d <= 12 then 12 - s else if (s + d) % 12 == 0 then d else d + 1
  }

  /** Twelfths of the premium the intended rule charges: the rest of the
      start year when the lease ends within it, otherwise `d`. */
  function IntendedTwelfths(s: int, d: int): int
  {
    if s + d <= 12 then 12 - s else d
  }

  /** With the final year taken to be the year after the final lease
      month's when that month is a December, and charged the number of the
      month after the final lease month, a lease crossing a year end is
      charged one twelfth too many unless it ends in December. */
  lemma TwelfthsAsWritten(s: int, d: int)
    requires 0 <= s < 12 && 1 <= d
    ensures TwelfthsUpTo(s, d, (s + d) / 12, (s + d) % 12 + 1, d) == AsWrittenTwelfths(s, d)
  {
    var ly := (s + d) / 12;
    assert ly == (s + d - 1) / 12 || ly == (s + d - 1) / 12 + 1;
    assert ly == (s + d - 1) / 12 <==> (s + d) % 12 != 0;
    TwelfthsOverLease(s, d, ly, (s + d) % 12 + 1);
  }

  /** With the final year taken to be the year of the final lease month,
      charged that month's number, a lease crossing a year end is charged
      exactly its number of months. */
  lemma TwelfthsIntended(s: int, d: int)
    requires 0 <= s < 12 && 1 <= d
    ensures TwelfthsUpTo(s, d, (s + d - 1) / 12, (s + d - 1) % 12 + 1, d) == IntendedTwelfths(s, d)
  {
    TwelfthsOverLease(s, d, (s + d - 1) / 12, (s + d - 1) % 12 + 1);
  }

  // ---------------------------------------------------------------------
  // As written: the final year is the year of `endMonth`, charged
  // `endMonth` twelfths

  /** In the code as written, an in-term month is charged the number of
      twelfths of `ChargedTwelfths` with the final year taken to be the year
      of `endYear` and its charge `endMonth` twelfths. */
  lemma InsuranceChargeInTwelfths(p: Params, month: int)
    requires 1 <= p.startMonth <= 12 && 1 <= month <= p.duration
    ensures var s := p.startMonth - 1;
      InsuranceCharge(p, month)
        == (p.insuranceCost / 12.0) * ChargedTwelfths(s, p.duration, (s + p.duration) / 12, (s + p.duration) % 12 + 1, month) as real
  {
    var s := p.startMonth - 1;
    assert CalendarMonth(p, month) == (s + month - 1) % 12 + 1;
    assert CalendarYear(p, month) == EndYear(p) <==> (s + month - 1) / 12 == (s + p.duration) / 12;
    assert EndMonth(p) == (s + p.duration) % 12 + 1;
  }

  /** As written, the charge of each in-term month and nothing after the term. */
  function InTermInsurance(p: Params): int -> real
  {
    month => if month <= p.duration then InsuranceCharge(p, month) else 0.0
  }

  lemma {:induction false} InsuranceUpToIsSum(p: Params, n: int)
    ensures InsuranceUpTo(p, n) == SumReal(InTermInsurance(p), n)
  {
    if n > 0 {
      InsuranceUpToIsSum(p, n - 1);
    }
  }

  lemma InTermInsuranceMonthly(p: Params, n: int, r: real)
    requires 1 <= p.startMonth <= 12 && n <= p.duration
    requires r == p.insuranceCost / 12.0
    ensures forall m :: 1 <= m <= n ==>
      InTermInsurance(p)(m) == Times(r, ChargedTwelfths(p.startMonth - 1, p.duration, (p.startMonth - 1 + p.duration) / 12, (p.startMonth - 1 + p.duration) % 12 + 1, m))
  {
    forall m | 1 <= m <= n
      ensures InTermInsurance(p)(m) == Times(r, ChargedTwelfths(p.startMonth - 1, p.duration, (p.startMonth - 1 + p.duration) / 12, (p.startMonth - 1 + p.duration) % 12 + 1, m))
    {
      InsuranceChargeInTwelfths(p, m);
      ProductAsShares(InsuranceCharge(p, m), r, ChargedTwelfths(p.startMonth - 1, p.duration, (p.startMonth - 1 + p.duration) / 12, (p.startMonth - 1 + p.duration) % 12 + 1, m));
    }
  }

  lemma InTermInsuranceSum(p: Params, r: real)
    requires 1 <= p.startMonth <= 12 && 1 <= p.duration
    requires r == p.insuranceCost / 12.0
    ensures SumReal(InTermInsurance(p), p.duration)
         == Times(r, TwelfthsUpTo(p.startMonth - 1, p.duration, (p.startMonth - 1 + p.duration) / 12, (p.startMonth - 1 + p.duration) % 12 + 1, p.duration))
  {
    InTermInsuranceMonthly(p, p.duration, r);
    ScaledTwelfths(InTermInsurance(p), p.startMonth - 1, p.duration, (p.startMonth - 1 + p.duration) / 12, (p.startMonth - 1 + p.duration) % 12 + 1, r, p.duration);
  }

  lemma InsuranceUpToInShares(p: Params)
    requires 1 <= p.startMonth <= 12 && 1 <= p.duration
    ensures InsuranceUpTo(p, p.duration) == Times(p.insuranceCost / 12.0, AsWrittenTwelfths(p.startMonth - 1, p.duration))
  {
    InsuranceUpToIsSum(p, p.duration);
    InTermInsuranceSum(p, p.insuranceCost / 12.0);
    TwelfthsAsWritten(p.startMonth - 1, p.duration);
  }

  /** As written, the in-term insurance of a lease started in a valid month
      comes to `AsWrittenTwelfths` twelfths of the premium: one twelfth too
      many for a lease that crosses a year end and does not end in
      December, because the final year's January charges `endMonth`
      twelfths and `endMonth` is the month after the final lease month. */
  lemma InsuranceTotalAsWritten(p: Params)
    requires 1 <= p.startMonth <= 12 && 1 <= p.duration
    ensures Projection(p).totalInsuranceCost
         == Times(p.insuranceCost / 12.0, AsWrittenTwelfths(p.startMonth - 1, p.duration))
  {
    ProjectionParts(p);
    InsuranceUpToInShares(p);
  }

  /** A lease started in December for two months, at a premium of 120,
      spans December and January and should pay two months' premium (20);
      as written it pays 10 in December and, in the final year's January,
      `endMonth` = 2 twelfths, 20, for 30 in all. */
  lemma InsuranceOverchargeExample(p: Params)
    requires p.startMonth == 12 && p.duration == 2 && p.insuranceCost == 120.0
    ensures Projection(p).totalInsuranceCost == 30.0
    ensures IntendedInsuranceUpTo(p, p.duration) == 20.0
  {
    InsuranceTotalAsWritten(p);
    IntendedInsuranceTotal(p);
  }

  // ---------------------------------------------------------------------
  // As intended: the final year's January pays for the months leased in
  // that year, the number of the final lease month

  /** The insurance rule with the final year taken to be the year of the
      final lease month and charged that month's number of twelfths. */
  function IntendedInsuranceCharge(p: Params, month: int): real
  {
    if month == 1 then
      (p.insuranceCost / 12.0) * (13 - p.startMonth) as real
    else if CalendarMonth(p, month) == 1 && month <= p.duration then
      if CalendarYear(p, month) == CalendarYear(p, p.duration) then (p.insuranceCost / 12.0) * FinalLeaseMonth(p) as real
      else p.insuranceCost
    else 0.0
  }

  /** Intended insurance accumulated over the in-term months among 1..`month`. */
  function IntendedInsuranceUpTo(p: Params, month: int): real
    decreases month
  {
    if month <= 0 then 0.0
    else
      IntendedInsuranceUpTo(p, month - 1)
      + (if month <= p.duration then IntendedInsuranceCharge(p, month) else 0.0)
  }

  /** The two rules differ only in the January of the final year. */
  lemma ChargesDifferOnlyInFinalJanuary(p: Params, month: int)
    requires 1 <= p.startMonth <= 12 && 1 <= month <= p.duration
    requires month == 1 || CalendarMonth(p, month) != 1 || CalendarYear(p, month) < CalendarYear(p, p.duration)
    ensures IntendedInsuranceCharge(p, month) == InsuranceCharge(p, month)
  {
    var s := p.startMonth - 1;
    assert (s + month - 1) / 12 <= (s + p.duration - 1) / 12 <= (s + p.duration) / 12;
  }

  lemma IntendedInsuranceChargeInTwelfths(p: Params, month: int)
    requires 1 <= p.startMonth <= 12 && 1 <= month <= p.duration
    ensures var s := p.startMonth - 1;
      IntendedInsuranceCharge(p, month)
        == (p.insuranceCost / 12.0) * ChargedTwelfths(s, p.duration, (s + p.duration - 1) / 12, (s + p.duration - 1) % 12 + 1, month) as real
  {
    var s := p.startMonth - 1;
    assert CalendarMonth(p, month) == (s + month - 1) % 12 + 1;
    assert CalendarYear(p, month) == CalendarYear(p, p.duration)
       <==> (s + month - 1) / 12 == (s + p.duration - 1) / 12;
    assert FinalLeaseMonth(p) == (s + p.duration - 1) % 12 + 1;
  }

  /** As intended, the charge of each in-term month and nothing after the term. */
  function IntendedInTermInsurance(p: Params): int -> real
  {
    month => if month <= p.duration then IntendedInsuranceCharge(p, month) else 0.0
  }

  lemma {:induction false} IntendedInsuranceUpToIsSum(p: Params, n: int)
    ensures IntendedInsuranceUpTo(p, n) == SumReal(IntendedInTermInsurance(p), n)
  {
    if n > 0 {
      IntendedInsuranceUpToIsSum(p, n - 1);
    }
  }

  lemma IntendedInTermInsuranceMonthly(p: Params, n: int, r: real)
    requires 1 <= p.startMonth <= 12 && n <= p.duration
    requires r == p.insuranceCost / 12.0
    ensures forall m :: 1 <= m <= n ==>
      IntendedInTermInsurance(p)(m) == Times(r, ChargedTwelfths(p.startMonth - 1, p.duration, (p.startMonth - 1 + p.duration - 1) / 12, (p.startMonth - 1 + p.duration - 1) % 12 + 1, m))
  {
    forall m | 1 <= m <= n
      ensures IntendedInTermInsurance(p)(m) == Times(r, ChargedTwelfths(p.startMonth - 1, p.duration, (p.startMonth - 1 + p.duration - 1) / 12, (p.startMonth - 1 + p.duration - 1) % 12 + 1, m))
    {
      IntendedInsuranceChargeInTwelfths(p, m);
      ProductAsShares(IntendedInsuranceCharge(p, m), r, ChargedTwelfths(p.startMonth - 1, p.duration, (p.startMonth - 1 + p.duration - 1) / 12, (p.startMonth - 1 + p.duration - 1) % 12 + 1, m));
    }
  }

  lemma IntendedInTermInsuranceSum(p: Params, r: real)
    requires 1 <= p.startMonth <= 12 && 1 <= p.duration
    requires r == p.insuranceCost / 12.0
    ensures SumReal(IntendedInTermInsurance(p), p.duration)
         == Times(r, TwelfthsUpTo(p.startMonth - 1, p.duration, (p.startMonth - 1 + p.duration - 1) / 12, (p.startMonth - 1 + p.duration - 1) % 12 + 1, p.duration))
  {
    IntendedInTermInsuranceMonthly(p, p.duration, r);
    ScaledTwelfths(IntendedInTermInsurance(p), p.startMonth - 1, p.duration, (p.startMonth - 1 + p.duration - 1) / 12, (p.startMonth - 1 + p.duration - 1) % 12 + 1, r, p.duration);
  }

  /** With the intended proration a lease that crosses a year end pays the
      premium for exactly its `duration` months; one that ends within its
      start year pays, by design, the rest of that year. */
  lemma IntendedInsuranceTotal(p: Params)
    requires 1 <= p.startMonth <= 12 && 1 <= p.duration
    ensures IntendedInsuranceUpTo(p, p.duration) == Times(p.insuranceCost / 12.0, IntendedTwelfths(p.startMonth - 1, p.duration))
  {
    IntendedInsuranceInTwelfths(p);
    TwelfthsIntended(p.startMonth - 1, p.duration);
  }

  /** The intended insurance of the term is the premium's twelfth times
      the twelfths charged month by month. */
  lemma IntendedInsuranceInTwelfths(p: Params)
    requires 1 <= p.startMonth <= 12 && 1 <= p.duration
    ensures IntendedInsuranceUpTo(p, p.duration)
      == Times(p.insuranceCost / 12.0, TwelfthsUpTo(p.startMonth - 1, p.duration,
           (p.startMonth - 1 + p.duration - 1) / 12, (p.startMonth - 1 + p.duration - 1) % 12 + 1, p.duration))
  {
    IntendedInsuranceUpToIsSum(p, p.duration);
    IntendedInTermInsuranceSum(p, p.insuranceCost / 12.0);
  }

  /** A lease that crosses a year end is charged, under the intended
      rule, one twelfth of the premium per leased month. */
  lemma IntendedInsuranceCrossingYearEnd(p: Params)
    requires 1 <= p.startMonth <= 12 && p.startMonth - 1 + p.duration > 12
    ensures IntendedInsuranceUpTo(p, p.duration) == Times(p.insuranceCost / 12.0, p.duration)
  {
    IntendedInsuranceTotal(p);
  }
}
