/** The arithmetic of extract_salary once the min-max pattern has matched:
    k-suffix scaling, classification into an hourly, monthly or yearly
    interval, annualisation, and the bounds gate. The regular expression
    and the string-to-number parsing are abstracted into the matched
    groups: two parsed amounts and two k-suffix flags. */
module Salary {

  import opened Maybe

  datatype Interval = Hourly | Monthly | Yearly

  /** The groups of a match: the parsed min and max and whether each was
      followed by a k. */
  datatype SalaryMatch = SalaryMatch(minAmount: nat, minK: bool, maxAmount: nat, maxK: bool)

  /** The keyword parameters of extract_salary. */
  datatype Limits = Limits(lower: int, upper: int, hourly: int, monthly: int, enforceAnnual: bool)

  /** Their defaults. */
  const DefaultLimits := Limits(1000, 700000, 350, 30000, false)

  /** The (interval, min, max, currency) tuple when it is not all None. */
  datatype Pay = Pay(interval: Interval, min: nat, max: nat, currency: string)

  /** Hours in a working year and months in a year. */
  const HoursPerYear: nat := 2080
  const MonthsPerYear: nat := 12

  function Factor(i: Interval): nat {
    match i
    case Hourly => HoursPerYear
    case Monthly => MonthsPerYear
    case Yearly => 1
  }

  /** A k on either bound multiplies both. */
  function Scaled(m: SalaryMatch): (r: (nat, nat))
    ensures (m.minK || m.maxK) ==> r.0 == 1000 * m.minAmount && r.1 == 1000 * m.maxAmount
    ensures !(m.minK || m.maxK) ==> r.0 == m.minAmount && r.1 == m.maxAmount
    ensures r.0 * m.maxAmount == r.1 * m.minAmount
  {
    if m.minK || m.maxK then (m.minAmount * 1000, m.maxAmount * 1000) else (m.minAmount, m.maxAmount)
  }

  /** The interval is decided by the min alone. */
  function Classify(min: int, lim: Limits): (r: Interval)
    ensures r == Hourly <==> min < lim.hourly
    ensures r == Monthly <==> lim.hourly <= min < lim.monthly
    ensures r == Yearly <==> lim.hourly <= min && lim.monthly <= min
  {
    if min < lim.hourly then Hourly
    else if min < lim.monthly then Monthly
    else Yearly
  }

  /** The threshold the max must also be under to be annualised; a yearly
      max needs none. */
  predicate UnderSameThreshold(i: Interval, max: int, lim: Limits) {
    match i
    case Hourly => max < lim.hourly
    case Monthly => max < lim.monthly
    case Yearly => true
  }

  /** The annual max when one is set: None when the max is not under the
      min's threshold. */
  function AnnualMax(min: nat, max: nat, lim: Limits): (r: Option<nat>)
    ensures r.Some? <==> UnderSameThreshold(Classify(min, lim), max, lim)
    ensures r.Some? ==> r.value == max * Factor(Classify(min, lim))
  {
    match Classify(min, lim)
    case Hourly => if max < lim.hourly then Some(max * HoursPerYear) else None
    case Monthly => if max < lim.monthly then Some(max * MonthsPerYear) else None
    case Yearly => Some(max)
  }

  /** The bounds gate on the annual values. */
  predicate InBounds(annualMin: int, annualMax: int, lim: Limits) {
    && lim.lower <= annualMin <= lim.upper
    && lim.lower <= annualMax <= lim.upper
    && annualMin < annualMax
  }

  /** extract_salary. `text` is salary_str (None or a string) and `found`
      what the pattern search returned on it. */
  function ExtractSalary(text: Option<string>, found: Option<SalaryMatch>, lim: Limits): (r: Option<Pay>)
    ensures (text.None? || text == Some("") || found.None?) ==> r.None?
    ensures r.Some? ==>
      var (min, max) := Scaled(found.value);
      var i := Classify(min, lim);
      && r.value.interval == i
      && r.value.currency == "USD"
      && UnderSameThreshold(i, max, lim)
      && max * Factor(i) != 0
      && InBounds(min * Factor(i), max * Factor(i), lim)
      && (lim.enforceAnnual ==> r.value.min == min * Factor(i) && r.value.max == max * Factor(i))
      && (!lim.enforceAnnual ==> r.value.min == min && r.value.max == max)
  {
    if text.None? || text.value == "" then None
    else match found
      case None => None
      case Some(m) =>
        var (min, max) := Scaled(m);
        var interval := Classify(min, lim);
        var annualMin := min * Factor(interval);
        match AnnualMax(min, max, lim)
        case None => None
        case Some(annualMax) =>
          if annualMax == 0 then None
          else if InBounds(annualMin, annualMax, lim) then
            if lim.enforceAnnual then Some(Pay(interval, annualMin, annualMax, "USD"))
            else Some(Pay(interval, min, max, "USD"))
          else None
  }

  /** The gate is exact: a match gives a result precisely when the max is
      under the min's threshold, its annual value is not zero, and the
      annual values pass the bounds. */
  lemma AcceptedExactly(text: string, m: SalaryMatch, lim: Limits)
    requires text != ""
    ensures var (min, max) := Scaled(m);
            var i := Classify(min, lim);
            ExtractSalary(Some(text), Some(m), lim).Some? <==>
              UnderSameThreshold(i, max, lim) && max * Factor(i) != 0 && InBounds(min * Factor(i), max * Factor(i), lim)
  {
  }

  /** The k-suffix is not per bound: marking either bound, or both, gives
      the same result. */
  lemma KSuffixOnEitherBound(text: Option<string>, min: nat, max: nat, lim: Limits)
    ensures ExtractSalary(text, Some(SalaryMatch(min, true, max, false)), lim)
         == ExtractSalary(text, Some(SalaryMatch(min, false, max, true)), lim)
         == ExtractSalary(text, Some(SalaryMatch(min, true, max, true)), lim)
  {
  }

  /** Whether the annual figures are returned does not change whether a
      result is returned, and the annual figures are the raw ones times the
      interval's factor. */
  lemma EnforcedIsAnnualisedRaw(text: Option<string>, found: Option<SalaryMatch>, lim: Limits)
    ensures var raw := ExtractSalary(text, found, lim.(enforceAnnual := false));
            var annual := ExtractSalary(text, found, lim.(enforceAnnual := true));
            && (raw.Some? <==> annual.Some?)
            && (raw.Some? ==>
                  && annual.value.interval == raw.value.interval
                  && annual.value.min == raw.value.min * Factor(raw.value.interval)
                  && annual.value.max == raw.value.max * Factor(raw.value.interval))
  {
  }

  /** A returned range is never empty or reversed, raw or annual. */
  lemma RangeIsIncreasing(text: Option<string>, found: Option<SalaryMatch>, lim: Limits)
    ensures var r := ExtractSalary(text, found, lim);
            r.Some? ==> r.value.min < r.value.max
  {
    var r := ExtractSalary(text, found, lim);
    if r.Some? && !lim.enforceAnnual {
      var (min, max) := Scaled(found.value);
      var f := Factor(Classify(min, lim));
      assert min * f < max * f;
      FactorCancels(min, max, f);
    }
  }

  lemma FactorCancels(a: nat, b: nat, f: nat)
    requires a * f < b * f
    ensures a < b
  {
    if a >= b {
      MulMonotone(b, a, f);
    }
  }

  lemma MulMonotone(a: nat, b: nat, f: nat)
    requires a <= b
    ensures a * f <= b * f
  {
    assert b * f == a * f + (b - a) * f;
  }

  /** An hourly min with a max at or above the hourly threshold gives no
      result: the max is not annualised, so the annual max is unset. */
  lemma HourlyMinMonthlyMaxRejected(text: string, m: SalaryMatch, lim: Limits)
    requires text != ""
    requires Scaled(m).0 < lim.hourly <= Scaled(m).1
    ensures ExtractSalary(Some(text), Some(m), lim).None?
  {
  }

  /** With the default limits: "$50k - $80k" is a yearly range kept as is;
      "$20 - $30" is hourly, kept raw, and its annual range 41,600 to
      62,400 passes the gate; "$20 - $400" gives nothing. */
  lemma DefaultExamples(text: string)
    requires text != ""
    ensures ExtractSalary(Some(text), Some(SalaryMatch(50, true, 80, true)), DefaultLimits)
         == Some(Pay(Yearly, 50000, 80000, "USD"))
    ensures ExtractSalary(Some(text), Some(SalaryMatch(20, false, 30, false)), DefaultLimits)
         == Some(Pay(Hourly, 20, 30, "USD"))
    ensures ExtractSalary(Some(text), Some(SalaryMatch(20, false, 30, false)), DefaultLimits.(enforceAnnual := true))
         == Some(Pay(Hourly, 41600, 62400, "USD"))
    ensures ExtractSalary(Some(text), Some(SalaryMatch(20, false, 400, false)), DefaultLimits).None?
  {
  }

}
