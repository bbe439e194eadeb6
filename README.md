# Leasing cost projector, modelled in Dafny

The application is a browser calculator for the cost of leasing a car. It
estimates the leasing payments, extra-kilometre charges, energy, insurance
and the commuting tax refund over the lease. This project models its
computational core:

- **The parameter slice** (`src/redux/leasingSlice.js`). It holds a flat
  record of fifteen scalars with documented defaults and one reducer per
  field. Its `loadState`/`saveState` pair reads and writes the record in a
  key-value store under the key `leasingState`.
- **The coercion** both projectors apply to that record. `parseInt(x) || d`
  and `parseFloat(x) || 0` become `Coercion.Coerce`. JavaScript's truncating
  `%` and `Math.ceil(d / 12)` are written out.
- **The calendar-aware projector** (`calculateCosts` in
  `src/components/ResultsSection.jsx`). The month loop is the method
  `CalendarProjection.BreakdownLoop`, proved equal to the specification
  function `Breakdown`. The whole result is `CalculateCosts`, proved equal
  to `Projection`. `CalendarProperties` states what the breakdown promises:
  - the calendar month and year of each entry;
  - the leasing, insurance, refund, energy and extra-kilometre schedules;
  - the running cumulative cost;
  - that the leasing, energy and insurance columns sum to the aggregates;
  - the aggregate identities, the per-month averages and the cost per
    kilometre.

  `InsuranceProration` counts the insurance in twelfths of the premium.
  `ColumnTotals` shows where the extra-km and refund columns part from the
  aggregates, and proves that a corrected settlement rule, charging only
  the lease months each settlement covers, makes the extra-km column add
  up to `extraKmCost`.
- **The older projector** (`calculateCosts` and `createChartData` in
  `src/components/ResultsSection.js`):
  - Its year loop is `LegacyProjection.CalculateCosts`. It is proved to
    charge each year's overage as that year's share of a full year's
    overage, so the loop's total equals the calendar projector's term
    overage.
  - The chart loop is `LegacyChart.CreateChartData`. It keeps a per-year
    kilometre tracker (a map), and its invariant is `TrackerInv`.
  - `ChartProperties` states what each chart series holds and how the
    running effective cost accumulates. It also shows that a month's
    extra-kilometre charge is the new overage in the tracker year, and how
    the March refunds add up.

All amounts are mathematical reals. Durations, day counts and months are
integers. The two projectors are modelled as written, each with its own
rules. Where they disagree, lemmas relate them (`AgreesWithCalendarProjector`,
`YearlyOverageEqualsTermOverage`).

## Model

| member | source | states |
|---|---|---|
| LeasingSlice.KeyValueStore.constructor | src/redux/leasingSlice.js:6 | A store holding the given items. Two flags say whether reading and writing succeed or throw. |
| LeasingSlice.LoadFrom | src/redux/leasingSlice.js:4-15 | Loading yields nothing when the read throws or the key is absent. Otherwise it yields the parse of the stored text. |
| LeasingSlice.LoadState | src/redux/leasingSlice.js:4-15 | `loadState` against the live store: nothing when the store cannot be read or holds nothing under `leasingState`, otherwise the parse of the text stored there. |
| LeasingSlice.SaveState | src/redux/leasingSlice.js:92-99 | A writable store gets the serialised state under `leasingState` and nothing else changes. A store whose write throws is left unchanged. |
| LeasingSlice.InitialRecord | src/redux/leasingSlice.js:21-37 | The initial state is the loaded record when one was stored. When nothing (or a falsy value) was loaded, it is the default record. |
| LeasingSlice.NothingStoredGivesDefaults | src/redux/leasingSlice.js:21-37 | With nothing stored, every field takes its documented default: 36 months, 5000, 432, 15000 km, 0.0824, 88 km, 110 and 220 days, 10000 km, 0.30, 22 kWh, 0.38, 790, month 5, the current year. |
| LeasingSlice.SaveThenLoad | src/redux/leasingSlice.js:92-99 | Saving a state and loading it back yields that same state, for any serialiser that the parser inverts. |
| LeasingSlice.SaveThenLoadStore | src/redux/leasingSlice.js:92-99 | On a readable, writable store, `saveState` followed by `loadState` gives back the saved state, and the slice's initial state built from it is that state. |
| LeasingSlice.Slice.constructor | src/redux/leasingSlice.js:21-37 | The slice starts from the initial state. |
| LeasingSlice.Slice.UpdateLeasingDuration | src/redux/leasingSlice.js:43-45 | Sets `leasingDuration` to the payload; every other field is unchanged. |
| LeasingSlice.Slice.UpdateOneTimePayment | src/redux/leasingSlice.js:46-48 | Sets `oneTimePayment` to the payload; every other field is unchanged. |
| LeasingSlice.Slice.UpdateMonthlyCost | src/redux/leasingSlice.js:49-51 | Sets `monthlyCost` to the payload; every other field is unchanged. |
| LeasingSlice.Slice.UpdateIncludedKm | src/redux/leasingSlice.js:52-54 | Sets `includedKm` to the payload; every other field is unchanged. |
| LeasingSlice.Slice.UpdateExtraKmCost | src/redux/leasingSlice.js:55-57 | Sets `extraKmCost` to the payload; every other field is unchanged. |
| LeasingSlice.Slice.UpdateOfficeKm | src/redux/leasingSlice.js:58-60 | Sets `officeKm` to the payload; every other field is unchanged. |
| LeasingSlice.Slice.UpdateOfficeDays | src/redux/leasingSlice.js:61-63 | Sets `officeDays` to the payload; every other field is unchanged. |
| LeasingSlice.Slice.UpdateTaxOfficeDays | src/redux/leasingSlice.js:64-66 | Sets `taxOfficeDays` to the payload; every other field is unchanged. |
| LeasingSlice.Slice.UpdateFixedKmPerYear | src/redux/leasingSlice.js:67-69 | Sets `fixedKmPerYear` to the payload; every other field is unchanged. |
| LeasingSlice.Slice.UpdateTaxReturn | src/redux/leasingSlice.js:70-72 | Sets `taxReturn` to the payload; every other field is unchanged. |
| LeasingSlice.Slice.UpdateEnergyConsumption | src/redux/leasingSlice.js:73-75 | Sets `energyConsumption` to the payload; every other field is unchanged. |
| LeasingSlice.Slice.UpdateEnergyCost | src/redux/leasingSlice.js:76-78 | Sets `energyCost` to the payload; every other field is unchanged. |
| LeasingSlice.Slice.UpdateInsuranceCostPerYear | src/redux/leasingSlice.js:79-81 | Sets `insuranceCostPerYear` to the payload; every other field is unchanged. |
| LeasingSlice.Slice.UpdateStartMonth | src/redux/leasingSlice.js:82-84 | Sets `startMonth` to the payload; every other field is unchanged. |
| LeasingSlice.Slice.UpdateStartYear | src/redux/leasingSlice.js:85-87 | Sets `startYear` to the payload; every other field is unchanged. |
| Coercion.Trunc | src/components/ResultsSection.jsx:48 | Truncation toward zero: the result is within one of the value, on the value's side of zero. |
| Coercion.ParseIntOr | src/components/ResultsSection.jsx:48 | `parseInt(x) \|\| d`: the fallback when the value is missing or truncates to 0. Otherwise the nonzero truncation, bounded as above. |
| Coercion.ParseFloatOrZero | src/components/ResultsSection.jsx:49 | `parseFloat(x) \|\| 0`: the value itself, or 0 when missing. |
| Coercion.JsRem12 | src/components/ResultsSection.jsx:131 | JavaScript's `a % 12`: congruent to `a`, in 0..11 for non-negative `a` and in -11..0 for negative `a`. |
| Coercion.Ceil12 | src/components/ResultsSection.js:83 | `Math.ceil(d / 12)`: the least `r` with `d <= 12 r`. |
| Coercion.Coerce | src/components/ResultsSection.jsx:48-62 | Missing fields fall back as the code does: duration and monthly cost 0, start month 1, start year the current year. A start month in [1, 13) coerces into 1..12. |
| Coercion.DefaultsCoerce | src/components/ResultsSection.jsx:48-62 | The default record coerces to the documented parameters: 36 months, month 5 of the current year, and so on. |
| CalendarProjection.PushedEntry | src/components/ResultsSection.jsx:195-209 | An entry pushed with the loop's computed fields is the specification entry for that month. |
| CalendarProjection.BreakdownLoop | src/components/ResultsSection.jsx:129-210 | The month loop produces exactly `Breakdown(p)`. Its insurance accumulator ends at the in-term insurance sum `InsuranceUpTo(p, duration)`. |
| CalendarProjection.CalculateCosts | src/components/ResultsSection.jsx:46-247 | `calculateCosts` returns exactly `Projection(p)`, the zeroed result for duration 0 included. |
| CalendarProperties.ZeroDurationIsZeroed | src/components/ResultsSection.jsx:65-88 | Duration 0 yields an empty breakdown and every aggregate 0. |
| CalendarProperties.ProjectionParts | src/components/ResultsSection.jsx:90-116 | For a nonzero duration, each aggregate is its formula and the breakdown is `Breakdown(p)`. |
| CalendarProperties.BreakdownShape | src/components/ResultsSection.jsx:123-208 | A positive duration gives `duration + 1` entries numbered 1.., of which only the last is after the lease. A negative duration gives none. |
| CalendarProperties.CalendarResolution | src/components/ResultsSection.jsx:131-132 | Each entry's calendar month is in 1..12 and sits `month - 1` months after the start. Consecutive entries are consecutive calendar months, December rolling into January of the next year. |
| CalendarProperties.EndDateIsMonthAfterFinal | src/components/ResultsSection.jsx:126-127 | `endMonth`/`endYear` name the month after the final lease month. The final-month year fraction uses the final lease month itself. |
| CalendarProperties.CumulativeIsRunningSum | src/components/ResultsSection.jsx:187-190 | Each entry's total is its charges minus its refund. Its cumulative cost is the sum of the totals up to and including it. |
| CalendarProperties.LeasingSchedule | src/components/ResultsSection.jsx:135-138 | The rate is charged exactly in months 1..duration, the one-time payment exactly in month 1. |
| CalendarProperties.BreakdownColumns | src/components/ResultsSection.jsx:135-172 | Every entry's leasing, one-time, insurance and energy columns follow the scheduling rules for its month. |
| CalendarProperties.LeasingPrefixSums | src/components/ResultsSection.jsx:135-138 | Over the first `n` entries, the rates total `monthly * min(n, duration)` and the one-time payment appears once. |
| CalendarProperties.LeasingTotals | src/components/ResultsSection.jsx:116 | A run of `duration + 1` entries following the leasing rules sums to `leasingCost`. |
| CalendarProperties.LeasingChargesSum | src/components/ResultsSection.jsx:116 | The breakdown's leasing and one-time columns sum to `leasingCost`. |
| CalendarProperties.TaxRefundSchedule | src/components/ResultsSection.jsx:168 | The whole yearly refund is paid in every in-term March and nothing is paid in any other entry. |
| CalendarProperties.InsuranceColumn | src/components/ResultsSection.jsx:141-160 | The breakdown's insurance entry is the insurance rule applied to its month, with the month, calendar date and after-lease flag. |
| CalendarProperties.InsuranceSchedule | src/components/ResultsSection.jsx:141-160 | From the entry's fields: the first entry pays `13 - startMonth` twelfths. An in-term January pays the premium, or only `endMonth` twelfths when its year is `endYear`. Every other entry pays nothing. |
| CalendarProperties.InsurancePrefixSums | src/components/ResultsSection.jsx:162-165 | The insurance column over the first `n` entries sums to the loop's accumulated insurance after `n` months. |
| CalendarProperties.InsuranceSum | src/components/ResultsSection.jsx:213 | `totalInsuranceCost` equals the insurance column's sum over the term, and over the whole breakdown. |
| CalendarProperties.EnergyPrefixSums | src/components/ResultsSection.jsx:171-172 | Over the first `n` entries, energy totals one twelfth of the yearly distance times the price per km, per in-term month. |
| CalendarProperties.EnergyTotals | src/components/ResultsSection.jsx:109 | A run of `duration + 1` entries following the energy rule sums to `totalEnergyCost`. |
| CalendarProperties.EnergySum | src/components/ResultsSection.jsx:109 | The breakdown's energy column sums to `totalEnergyCost`. |
| CalendarProperties.ExtraKmRule | src/components/ResultsSection.jsx:177-184 | An overage charge can only fall in an in-term December or in the final lease month. It is non-negative for a non-negative rate. |
| CalendarProperties.ExtraKmSchedule | src/components/ResultsSection.jsx:175-184 | The same for the breakdown's entries, read from their calendar month and after-lease flag. |
| CalendarProperties.OverageAggregate | src/components/ResultsSection.jsx:96-98 | `extraKm` is non-negative. It is 0 exactly when the term's distance is within the included distance, and otherwise it is their difference. |
| CalendarProperties.NoOverageMonth | src/components/ResultsSection.jsx:177-183 | If the yearly distance is within the yearly allowance, no month is charged for overage. |
| CalendarProperties.NoOverageNoCharge | src/components/ResultsSection.jsx:96-99 | If the yearly distance is within the yearly allowance, the aggregate overage, its cost and every entry's charge are 0. |
| CalendarProperties.AggregateTotals | src/components/ResultsSection.jsx:213-215 | `leasingCost = oneTime + monthly * duration`. The cost before tax is leasing plus overage plus energy plus insurance, and the cost after tax subtracts the prorated refund. |
| CalendarProperties.MonthlyAverages | src/components/ResultsSection.jsx:218-219 | The monthly averages times the duration give back the totals. |
| CalendarProperties.CostPerKm | src/components/ResultsSection.jsx:222-223 | The cost per km is 0 when the term's distance is not positive. Otherwise, times that distance, it gives back the totals. |
| CalendarProperties.DefaultsExample | src/components/ResultsSection.jsx:90-104 | For the default parameters: leasing 20552, 29360 km a year, 88080 km over the term, 43080 extra km costing 3549.792, a yearly refund of 11616, and 37 entries whose first pays 8/12 of the premium. |
| InsuranceProration.TwelfthsPrefix | src/components/ResultsSection.jsx:143-165 | Closed form of the twelfths charged up to month `n`: the rest of the start year plus 12 per January passed, with the final year's January charged its own count. |
| InsuranceProration.TwelfthsOverLease | src/components/ResultsSection.jsx:143-165 | Closed form of the twelfths charged over the whole term, for either choice of final year. |
| InsuranceProration.TwelfthsAsWritten | src/components/ResultsSection.jsx:126-127 | With the code's `endMonth`/`endYear`, the term is charged `12 - s` twelfths within one year. Across a year end it is charged `d`, or `d + 1` unless the lease ends in December. |
| InsuranceProration.TwelfthsIntended | src/components/ResultsSection.jsx:126-127 | With the final lease month and its year instead, the term is charged `d` twelfths whenever it crosses a year end. |
| InsuranceProration.InsuranceChargeInTwelfths | src/components/ResultsSection.jsx:143-160 | Each in-term month's insurance is a whole number of twelfths of the premium, the number fixed by the rule. |
| InsuranceProration.InsuranceUpToInShares | src/components/ResultsSection.jsx:162-165 | The accumulated insurance over the term is the as-written number of twelfths of the premium. |
| InsuranceProration.InsuranceTotalAsWritten | src/components/ResultsSection.jsx:213 | `totalInsuranceCost` is the as-written number of twelfths of the premium. |
| InsuranceProration.InsuranceOverchargeExample | src/components/ResultsSection.jsx:150-155 | A two-month lease from December, premium 120: the code charges 30, the intended rule 20. |
| InsuranceProration.ChargesDifferOnlyInFinalJanuary | src/components/ResultsSection.jsx:150-155 | The as-written and corrected rules agree on every month except a January in the final lease year. |
| InsuranceProration.IntendedInsuranceChargeInTwelfths | src/components/ResultsSection.jsx:143-160 | Under the corrected rule each in-term month is charged a whole number of twelfths, with the final January charged the final lease month's number. |
| InsuranceProration.IntendedInsuranceTotal | src/components/ResultsSection.jsx:150-155 | The corrected rule charges the intended twelfths over the term. |
| InsuranceProration.IntendedInsuranceCrossingYearEnd | src/components/ResultsSection.jsx:150-155 | A lease crossing a year end pays exactly `duration` twelfths of the premium under the corrected rule. |
| ColumnTotals.ExtraKmColumnExample | src/components/ResultsSection.jsx:177-184 | A lease of November to January with 12000 km a year, no allowance and 1 per km: the first December is charged 12000 and the final month 1000, 13000 in the column, while `extraKmCost` is 3000. |
| ColumnTotals.RefundColumnExample | src/components/ResultsSection.jsx:168 | A lease of February and March with a yearly refund of 720: the March entry refunds 720, the column's whole sum, while `totalTaxReturn` is 120. |
| ColumnTotals.NoMarchExample | src/components/ResultsSection.jsx:168 | A lease of May to October has no refund in any entry, while `totalTaxReturn` is 360. |
| ColumnTotals.CalendarMonthStep | src/components/ResultsSection.jsx:131 | The first entry's calendar month is the start month, and each next one is the following month, December wrapping to January. |
| ColumnTotals.CoveredPlusPending | src/components/ResultsSection.jsx:177-184 | After `n` lease months, the months settled so far plus the months since the last settlement are `n`. |
| ColumnTotals.CoveredOverTerm | src/components/ResultsSection.jsx:177-184 | The December and final-month settlements together cover every lease month exactly once. |
| ColumnTotals.MonthOverKmIsShare | src/components/ResultsSection.jsx:177-184 | Under the corrected rule a month's overage is one twelfth of a full year's overage per month it settles. |
| ColumnTotals.OverKmUpToIsShare | src/components/ResultsSection.jsx:177-184 | Under the corrected rule the overage up to month `n` is one twelfth of a full year's overage per month settled so far. |
| ColumnTotals.ChargesAtRate | src/components/ResultsSection.jsx:183 | The corrected charge column up to month `n` is the corrected overage up to `n` at the per-km rate. |
| ColumnTotals.OverKmOverTerm | src/components/ResultsSection.jsx:177-184 | Over the term the corrected overage is `duration` twelfths of a full year's overage. |
| ColumnTotals.TermOverageInTwelfths | src/components/ResultsSection.jsx:96-98 | The aggregate `extraKm` is `duration` twelfths of a full year's overage. |
| ColumnTotals.IntendedOverKmTotal | src/components/ResultsSection.jsx:96-98 | Under the corrected rule the settled overage over the term is the aggregate `extraKm`. |
| ColumnTotals.IntendedExtraKmTotal | src/components/ResultsSection.jsx:99 | Under the corrected rule the extra-km column over the whole breakdown adds up to `extraKmCost`. |
| ColumnTotals.ChargesAgreeAfterFirstYear | src/components/ResultsSection.jsx:177-184 | From the twelfth month on, the corrected rule charges what the code charges: only the first calendar year differs. |
| LegacyProjection.CalculateCosts | src/components/ResultsSection.js:42-134 | The function with its year loop returns exactly `LegacyProjection(p)`. |
| LegacyProjection.ProratedStep | src/components/ResultsSection.js:92-98 | One loop step's overage equals the prorated-overage function for that year's months. |
| LegacyProjection.Totals | src/components/ResultsSection.js:58-110 | Leasing is `oneTime + duration * monthly`. The effective total is leasing plus overage, energy and insurance minus the refund. Energy is office plus fixed. The effective monthly cost exists exactly when the duration is nonzero and is the total's share per month. |
| LegacyProjection.AssembledTotals | src/components/ResultsSection.js:106-133 | The same identities for the result record assembled around any overage values. |
| LegacyProjection.KmAxes | src/components/ResultsSection.js:61-69 | The tax distance counts tax days and excludes fixed km (it does not depend on actual days or fixed km). The driven distance counts actual days plus fixed km, and the two agree with equal day counts. |
| LegacyProjection.MonthsPrefix | src/components/ResultsSection.js:87-89 | The months of the first `n` loop years total `min(12 n, duration)`. |
| LegacyProjection.YearSplit | src/components/ResultsSection.js:83-89 | The loop visits `ceil(d / 12)` years. Each has 1..12 months, all but the last have 12, and together they have `d`. |
| LegacyProjection.NoYearsNoOverage | src/components/ResultsSection.js:83-87 | A non-positive duration runs no years and charges no overage. |
| LegacyProjection.OverageNonNegative | src/components/ResultsSection.js:98-99 | Every year's overage, and their total, is non-negative. |
| LegacyProjection.OverageCost | src/components/ResultsSection.js:99-102 | The accumulated overage cost is the accumulated overage times the rate. |
| LegacyProjection.AccumulatedFields | src/components/ResultsSection.js:84-103 | The result's overage fields are the loop's accumulations over the leasing years. Its insurance is the prorated premium. |
| LegacyProjection.YearOverageIsShare | src/components/ResultsSection.js:89-98 | A year's overage is its months' twelfths of a full year's overage. |
| LegacyProjection.OverageOverYearsIsShare | src/components/ResultsSection.js:87-103 | The first `n` years' overage is their months' twelfths of a full year's overage. |
| LegacyProjection.YearsOverageInTwelfths | src/components/ResultsSection.js:83-103 | Over all loop years the overage is one twelfth of a full year's overage per lease month. |
| LegacyProjection.YearsOverageAsShare | src/components/ResultsSection.js:83-103 | The loop's total overage is the duration in years times a full year's overage. |
| LegacyProjection.TermOverageAsShare | src/components/ResultsSection.jsx:93-98 | The calendar projector's term overage is the duration in years times a full year's overage. |
| LegacyProjection.YearlyOverageEqualsTermOverage | src/components/ResultsSection.js:83-103 | The older projector's year-by-year overage and its cost equal the calendar projector's term overage and cost. |
| LegacyProjection.AgreesWithCalendarProjector | src/components/ResultsSection.js:58-77 | The older projector's leasing, driven distance, refund and energy equal the calendar projector's. |
| LegacyProjection.InsuranceAgreesWithIntendedProration | src/components/ResultsSection.js:80 | For a lease crossing a year end, the prorated premium equals the calendar projector's corrected insurance total. |
| LegacyProjection.DefaultsExample | src/components/ResultsSection.js:83-103 | For the default parameters, the loop runs 3 years and accumulates 43080 extra km. |
| LegacyChart.TrackStepKeepsInv | src/components/ResultsSection.js:196-208 | One tracker step keeps the invariant: each tracked year holds the km driven in it so far and the yearly allowance. |
| LegacyChart.TrackMonth | src/components/ResultsSection.js:196-208 | The tracker update for month `i` moves the invariant from `i` to `i + 1`. |
| LegacyChart.ChargeMonth | src/components/ResultsSection.js:210-219 | The month's overage charge, computed from the tracker, equals the specification charge `ExtraKmAt`. |
| LegacyChart.ComputeMonth | src/components/ResultsSection.js:181-261 | One loop iteration yields the specification point for month `i` and keeps the tracker invariant. |
| LegacyChart.MonthlySeries | src/components/ResultsSection.js:165-262 | The loop over months 0..duration+12 yields exactly the specification chart. |
| LegacyChart.CreateChartData | src/components/ResultsSection.js:139-262 | `createChartData`'s series are exactly `Chart(p)`. |
| ChartProperties.ChartLength | src/components/ResultsSection.js:253-261 | After `n` months every series has `n` points. |
| ChartProperties.ChartEntry | src/components/ResultsSection.js:253-261 | Point `k` of every series is the specification point for month `k`. |
| ChartProperties.ChartSeries | src/components/ResultsSection.js:180-260 | The chart has `duration + 13` points, and point `k` of each series is as follows. The label is month `k % 12` of year `k / 12 + 1`. The one-time payment is at 0. The rate and a twelfth of the premium fall in months 1..duration. The overage charge is `ExtraKmAt`, and the refund series is the negated refund. |
| ChartProperties.ChartWorkEnergySeries | src/components/ResultsSection.js:221-227 | The commute-energy series is the monthly office distance times the price per km in months 1..duration, and 0 elsewhere. |
| ChartProperties.ChartPrivateEnergySeries | src/components/ResultsSection.js:221-227 | The private-energy series is the monthly fixed distance times the price per km in months 1..duration, and 0 elsewhere. |
| ChartProperties.RunningTotal | src/components/ResultsSection.js:247-261 | Each effective-cost point is the previous one plus that month's charges and its (negative) refund. |
| ChartProperties.KmOverLimitBounds | src/components/ResultsSection.js:214-217 | The km charged in a month lie between 0 and that month's distance. |
| ChartProperties.KmOverLimitIsNewOverage | src/components/ResultsSection.js:212-217 | The km charged in a month are the growth of the year's overage in that month. |
| ChartProperties.ExtraKmAtBounds | src/components/ResultsSection.js:210-219 | A month's overage charge lies between 0 and the month's distance times the rate. |
| ChartProperties.KmDrivenCountsLeasedMonths | src/components/ResultsSection.js:205-208 | The tracker's km for month `i`'s year are the monthly distance times the leased months of that year up to `i`. |
| ChartProperties.ChargedKmIsNewOverage | src/components/ResultsSection.js:205-219 | For the chart's months, the charged km are the growth of the tracker year's overage. |
| ChartProperties.YearChargedKmTelescopes | src/components/ResultsSection.js:196-219 | The km charged in the first `m` months of a tracker year add up to the overage of the km driven by then. |
| ChartProperties.ChartYearOverage | src/components/ResultsSection.js:196-219 | Over a whole tracker year the charged km add up to that year's overage of its leased months' distance. |
| ChartProperties.RefundTwelfthsClosedForm | src/components/ResultsSection.js:235-245 | The refund twelfths paid up to point `n` are `min(d, 12 * years refunded by then)`. |
| ChartProperties.ChartRefundTwelfthsAsWritten | src/components/ResultsSection.js:161-162 | Over the chart's `d + 13` points, `d` twelfths are refunded, or `d - 1` when `d % 12 == 1`. |
| ChartProperties.ChartRefundTwelfthsIntended | src/components/ResultsSection.js:161-162 | Over `d + 14` points, exactly `d` twelfths are refunded. |
| ChartProperties.LeaseAndInsuranceSeries | src/components/ResultsSection.js:187-233 | For a non-negative duration: the one-time payment at point 0 only, and the rate and a twelfth of the premium exactly in months 1..duration. |
| ChartProperties.ChartLeasingMatchesSummary | src/components/ResultsSection.js:187-191 | The one-time and rate series together sum to the summary's `totalLeasing`. |
| ChartProperties.ChartInsuranceMatchesSummary | src/components/ResultsSection.js:229-233 | The insurance series sums to the summary's prorated premium. |
| ChartProperties.RefundAtInShares | src/components/ResultsSection.js:237-245 | Each March refund is a whole number of twelfths of the yearly refund. |
| ChartProperties.RefundSchedule | src/components/ResultsSection.js:235-245 | A refund appears only at a March from the second year on, for a year within `ceil(d / 12)`. It is the yearly refund times that year's leased months (0..12) over 12. |
| ChartProperties.TaxReturnsTotal | src/components/ResultsSection.js:235-260 | The refund series up to point `n` sums to minus the refund twelfths paid by then. |
| ChartProperties.ChartRefundsAsWritten | src/components/ResultsSection.js:161-162 | The chart's refund series sums to minus `d` twelfths of the yearly refund, or `d - 1` when `d % 12 == 1`. |
| ChartProperties.DroppedRefundExample | src/components/ResultsSection.js:161-162 | A 13-month lease with a yearly refund of 120: the chart refunds 120 while the summary promises 130. |
| ChartProperties.IntendedChartRefundsAll | src/components/ResultsSection.js:161-162 | With one more point, the refund series sums to minus the summary's `taxReturnAmount` for every duration. |
| ChartProperties.RefundsMatchSummary | src/components/ResultsSection.js:106 | `d` twelfths of the yearly refund are the summary's `taxReturnAmount`. |

## Left out

- Rendering is not modelled: the React components, the chart datasets and options (`src/components/ResultsSection.js` from line 263 on), number formatting and the theme.
- `dateLabel` (the `month/year` text of a breakdown entry) is not modelled. It is determined by `currentMonth` and `currentYear`, which are modelled.
- Numbers are parsed from numbers, not strings. A stored scalar is a number or missing (`Option<real>`), and a value that would parse to `NaN` counts as missing. `parseInt` is truncation toward zero.
- In `createChartData`, `officeKm` and `officeDays` have no `|| 0` fallback (src/components/ResultsSection.js:145), so a missing value makes the series `NaN`. The model coerces them to 0 like every other field. Line 148 reads `taxOfficeDays` without a fallback too, but line 150 puts `|| 0` around the whole refund product, so a missing value gives a refund of 0 there, as in the model.
- IEEE-754 rounding is not modelled: amounts are exact reals.
- The clock is a parameter: `new Date().getFullYear()` becomes the `currentYear` argument.
- `localStorage` is a `KeyValueStore` object. Two flags stand for `getItem`/`setItem` throwing.
- `JSON.stringify`/`JSON.parse` are passed in as functions.
- The `console.error` logging is left out.
- The store wiring is not part of this model: the action creators `createSlice` generates, and the store subscription that calls `saveState`.
- `effectiveMonthly` is an `Option`: for duration 0, where JavaScript divides by zero, it is `None`.
- ChartYearOverage: states the tracker year's sum in kilometres. Its money form (that year's charges times the rate) is not stated as a lemma. Each month's charge is its charged km times the rate by the definition of `ExtraKmAt`.
- The calendar projector's breakdown columns for extra km and refunds do not add up to the aggregates `extraKmCost` and `totalTaxReturn`. The model keeps both as written and shows the gap. A November start over 3 months charges 13000 in the column against an aggregate of 3000 (`ColumnTotals.ExtraKmColumnExample`). A February start over 2 months refunds 720 against 120 (`ColumnTotals.RefundColumnExample`). A May start over 6 months refunds 0 against 360 (`ColumnTotals.NoMarchExample`). The extra-km gap is listed under Findings with a corrected rule. The refund gap has no corrected rule: a refund paid only in in-term Marches cannot reach the aggregate for a lease with no March, so which of the two is intended is left open.
- Coerce: its contract states only the fallbacks for missing values and the range of the start month. The coercion of each present field is its definition.

## Findings

| source | as written | input that shows it | evidently intended | confidence | as-written member | corrected member |
|---|---|---|---|---|---|---|
| src/components/ResultsSection.jsx:150-155 | The final-year January charges `endMonth` twelfths of the premium. `endMonth` (line 126) is the month after the final lease month, so a lease crossing a year end and not ending in December pays `d + 1` twelfths. | start month 12, duration 2, premium 120: total insurance 30 | charge the final year for its lease months only, `d` twelfths in all (20 here) | not executed | InsuranceProration.InsuranceOverchargeExample | InsuranceProration.IntendedInsuranceCrossingYearEnd |
| src/components/ResultsSection.jsx:177-184 | An in-term December charges a whole year's overage (`yearFraction` 1) even in the first calendar year, which may hold only a few lease months. The final month then charges its own calendar year again. | start month 11, duration 3, 12000 km a year, no allowance, 1 per km: the column charges 13000, the aggregate `extraKmCost` 3000 | charge each settlement for the lease months it covers, so the column adds up to `extraKmCost` | not executed | ColumnTotals.ExtraKmColumnExample | ColumnTotals.IntendedExtraKmTotal |
| src/components/ResultsSection.js:161-162 | The chart runs to month `duration + 12`, one month short of the last March refund when `duration % 12 == 1`. | duration 13, yearly refund 120: the chart refunds 120, the summary 130 | a horizon that reaches every refunded year's March, so the chart refunds `taxReturnAmount` | not executed | ChartProperties.DroppedRefundExample | ChartProperties.IntendedChartRefundsAll |
