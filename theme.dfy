/** The response-rate traffic light of the dashboard theme: a colour and a
    status word chosen by the thresholds 90 and 70. */
module Theme {
  /** `Colors.risk`, `Colors.warning` and `Colors.good`. */
  const Risk := "#EF4444"
  const Warning := "#F59E0B"
  const Good := "#10B981"

  /** The status words: excellent, fair and short of target. */
  const Excellent := "우수"
  const Fair := "보통"
  const Short := "미달"

  /** `getResponseRateColor`. */
  function ResponseRateColor(rate: real): (c: string)
    ensures c == Good <==> rate >= 90.0
    ensures c == Warning <==> 70.0 <= rate < 90.0
    ensures c == Risk <==> rate < 70.0
  {
    if rate >= 90.0 then Good
    else if rate >= 70.0 then Warning
    else Risk
  }

  /** `getResponseRateStatus`. */
  function ResponseRateStatus(rate: real): (s: string)
    ensures s == Excellent <==> rate >= 90.0
    ensures s == Fair <==> 70.0 <= rate < 90.0
    ensures s == Short <==> rate < 70.0
  {
    if rate >= 90.0 then Excellent
    else if rate >= 70.0 then Fair
    else Short
  }

  /** The tier of a colour: 2 for good, 1 for warning, 0 for risk. */
  function ColorRank(c: string): nat {
    if c == Good then 2 else if c == Warning then 1 else 0
  }

  /** The status word shown beside each colour. */
  function StatusOfColor(c: string): string {
    if c == Good then Excellent else if c == Warning then Fair else Short
  }

  /** Colour and status agree for every rate: the status is the one that
      belongs to the colour, and the correspondence is one-to-one. */
  lemma StatusMatchesColor(rate: real)
    ensures ResponseRateStatus(rate) == StatusOfColor(ResponseRateColor(rate))
    ensures ResponseRateStatus(rate) == Excellent <==> ResponseRateColor(rate) == Good
    ensures ResponseRateStatus(rate) == Fair <==> ResponseRateColor(rate) == Warning
    ensures ResponseRateStatus(rate) == Short <==> ResponseRateColor(rate) == Risk
  {
  }

  /** Raising the rate never moves it to a worse tier. */
  lemma RaisingRateNeverWorse(a: real, b: real)
    requires a <= b
    ensures ColorRank(ResponseRateColor(a)) <= ColorRank(ResponseRateColor(b))
  {
  }
}
