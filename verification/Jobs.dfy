/** Job postings and the pay terms that turn a posting into integer cents. */
module Jobs {
  import opened Wrappers

  datatype JobStatus = Available | Accepted | InProgress | Completed

  datatype PayType = Hourly | Flat | UnknownPay

  datatype Incomputable = UnknownPayType | NullPayRate | NullDurationHourly

  /** Hours. The source keeps them in floats; rounding of floats is not modelled. */
  type Hours = h: real | h >= 0.0

  /** Python's `round`: to the nearest integer, halves to the even neighbour. */
  function RoundHalfEven(x: real): (r: int)
    ensures -0.5 <= x - r as real <= 0.5
    ensures x - r as real == 0.5 || x - r as real == -0.5 ==> r % 2 == 0
  {
    var below := x.Floor;
    var rest := x - below as real;
    if rest < 0.5 || (rest == 0.5 && below % 2 == 0) then below else below + 1
  }

  datatype PayTerms = PayTerms(rate: Option<int>, payType: PayType, durationHours: Option<Hours>) {

    function IncomputableReason(): Option<Incomputable> {
      if payType.UnknownPay? then Some(UnknownPayType)
      else if rate.None? then Some(NullPayRate)
      else if payType.Hourly? && durationHours.None? then Some(NullDurationHourly)
      else None
    }

    /** Cents earned by the whole job, known when the rate is and, for hourly pay, the hours are. */
    function Earnings(): (cents: Option<int>)
      ensures cents.Some? <==> rate.Some? && (payType.Flat? || (payType.Hourly? && durationHours.Some?))
      ensures cents.None? <==> IncomputableReason().Some?
      ensures cents.Some? && payType.Flat? ==> cents == rate
      ensures cents.Some? && payType.Hourly? ==> -0.5 <= rate.value as real * durationHours.value - cents.value as real <= 0.5
      ensures cents.Some? && payType.Hourly? ==>
                var rest := rate.value as real * durationHours.value - cents.value as real;
                rest == 0.5 || rest == -0.5 ==> cents.value % 2 == 0
      ensures cents.Some? && rate.value >= 0 ==> cents.value >= 0
    {
      if IncomputableReason().Some? then None
      else if payType.Hourly? then
        var exact := rate.value as real * durationHours.value;
        assert rate.value >= 0 ==> exact >= 0.0;
        Some(RoundHalfEven(exact))
      else rate
    }
  }

  datatype Job = Job(
    id: int,
    messageId: int,
    payRate: Option<int>,
    payType: PayType,
    estimatedDurationHours: Option<Hours>,
    idealDatetime: Option<int>,
    datetimeFlexible: Option<bool>,
    status: JobStatus)
  {
    function Terms(): PayTerms {
      PayTerms(payRate, payType, estimatedDurationHours)
    }

    /** The CHECK constraints of the job table. */
    predicate Valid() {
      && (payRate.Some? ==> payRate.value > 0)
      && (estimatedDurationHours.Some? ==> estimatedDurationHours.value > 0.0)
    }
  }
}
