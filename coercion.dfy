/** The numeric coercion both cost projectors apply to the stored record
    (`parseInt(x) || d`, `parseFloat(x) || 0`), and the few JavaScript
    integer operators the calendar rules use. */
module Coercion {
  import opened Wrappers
  import opened LeasingSlice

  /** JavaScript's truncation of a number to an integer, toward zero. */
  function Trunc(v: real): (r: int)
    ensures 0.0 <= v ==> r as real <= v < r as real + 1.0
    ensures v < 0.0 ==> r as real - 1.0 < v <= r as real
  {
    if v >= 0.0 then v.Floor else -((-v).Floor)
  }

  /** `parseInt(x) || fallback`: a missing value and a value that truncates
      to 0 both give `fallback`. */
  function ParseIntOr(x: Scalar, fallback: int): (r: int)
    ensures x.None? ==> r == fallback
    ensures x.Some? && -1.0 < x.value < 1.0 ==> r == fallback
    ensures x.Some? && 1.0 <= x.value ==> 1 <= r && r as real <= x.value < r as real + 1.0
    ensures x.Some? && x.value <= -1.0 ==> r <= -1 && r as real - 1.0 < x.value <= r as real
  {
    match x
    case None => fallback
    case Some(v) => if Trunc(v) == 0 then fallback else Trunc(v)
  }

  /** `parseFloat(x) || 0`. */
  function ParseFloatOrZero(x: Scalar): (r: real)
    ensures x.None? ==> r == 0.0
    ensures x.Some? ==> r == x.value
  {
    x.GetOr(0.0)
  }

  /** JavaScript's `a % 12`: the remainder takes the sign of `a`. */
  function JsRem12(a: int): (r: int)
    ensures (a - r) % 12 == 0
    ensures 0 <= a ==> 0 <= r < 12
    ensures a < 0 ==> -12 < r <= 0
  {
    if a >= 0 then a % 12 else -((-a) % 12)
  }

  /** `Math.ceil(d / 12)` for an integer `d`. */
  function Ceil12(d: int): (r: int)
    ensures 12 * (r - 1) < d <= 12 * r
  {
    (d + 11) / 12
  }

  /** The coerced parameters, as the projectors use them. */
  datatype Params = Params(
    duration: int,
    oneTime: real,
    monthly: real,
    included: int,
    extraCost: real,
    officeKm: real,
    officeDays: int,
    taxOfficeDays: int,
    fixedKm: int,
    taxReturn: real,
    energyConsumption: real,
    energyCost: real,
    insuranceCost: real,
    startMonth: int,
    startYear: int)

  /** The coercion block at the top of `calculateCosts`; `currentYear` stands
      for `new Date().getFullYear()`. */
  function Coerce(rec: LeasingRecord, currentYear: int): (p: Params)
    ensures rec.leasingDuration.None? ==> p.duration == 0
    ensures rec.startMonth.None? ==> p.startMonth == 1
    ensures rec.startYear.None? ==> p.startYear == currentYear
    ensures rec.monthlyCost.None? ==> p.monthly == 0.0
    ensures rec.startMonth.Some? && 1.0 <= rec.startMonth.value < 13.0 ==> 1 <= p.startMonth <= 12
  {
    Params(
      duration := ParseIntOr(rec.leasingDuration, 0),
      oneTime := ParseFloatOrZero(rec.oneTimePayment),
      monthly := ParseFloatOrZero(rec.monthlyCost),
      included := ParseIntOr(rec.includedKm, 0),
      extraCost := ParseFloatOrZero(rec.extraKmCost),
      officeKm := ParseFloatOrZero(rec.officeKm),
      officeDays := ParseIntOr(rec.officeDays, 0),
      taxOfficeDays := ParseIntOr(rec.taxOfficeDays, 0),
      fixedKm := ParseIntOr(rec.fixedKmPerYear, 0),
      taxReturn := ParseFloatOrZero(rec.taxReturn),
      energyConsumption := ParseFloatOrZero(rec.energyConsumption),
      energyCost := ParseFloatOrZero(rec.energyCost),
      insuranceCost := ParseFloatOrZero(rec.insuranceCostPerYear),
      startMonth := ParseIntOr(rec.startMonth, 1),
      startYear := ParseIntOr(rec.startYear, currentYear))
  }

  /** The default record coerces to the documented parameter set. */
  lemma DefaultsCoerce(currentYear: int)
    ensures var p := Coerce(DefaultRecord(currentYear), currentYear);
      && p.duration == 36 && p.oneTime == 5000.0 && p.monthly == 432.0
      && p.included == 15000 && p.extraCost == 0.0824 && p.officeKm == 88.0
      && p.officeDays == 110 && p.taxOfficeDays == 220 && p.fixedKm == 10000
      && p.taxReturn == 0.30 && p.energyConsumption == 22.0 && p.energyCost == 0.38
      && p.insuranceCost == 790.0 && p.startMonth == 5 && p.startYear == currentYear
  {
  }
}
