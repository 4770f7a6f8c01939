/**
 * The query check shared by the statistics routes, and the global
 * statistics route built on it. A statistics window is a start date plus
 * either an end date or a range unit, never both. Dates are instants in
 * milliseconds; the current time is a parameter.
 */
module StatisticsRoutes {
  import opened Wrappers

  /** The `range` query values the schema admits. */
  datatype RangeUnit = Week | Month | Year | Day

  /** Passing, or the `BadRequestError` thrown with its message. */
  datatype Validation = Passed | BadRequest(message: string)

  const EndOrRangeRequired := "End date or range is required"
  const EndAndRangeNotAllowed := "Both end date and range are not allowed"
  const StartAfterEnd := "Start date cannot be after end date"

  /** The instant the start is compared with: the end date, or the current time without one. */
  function UpperBound(endDate: Option<int>, now: int): int {
    endDate.GetOr(now)
  }

  /**
   * `validateDatesAndRange(start_date, end_date, range)`: three checks in
   * order, the first that fails deciding the message. A start equal to the
   * end (or to now) is accepted.
   */
  function ValidateDatesAndRange(startDate: int, endDate: Option<int>, range: Option<RangeUnit>, now: int)
    : (r: Validation)
    ensures r.Passed? <==> endDate.Some? != range.Some? && startDate <= UpperBound(endDate, now)
    ensures endDate.None? && range.None? ==> r == BadRequest(EndOrRangeRequired)
    ensures endDate.Some? && range.Some? ==> r == BadRequest(EndAndRangeNotAllowed)
    ensures endDate.Some? != range.Some? && startDate > UpperBound(endDate, now) ==> r == BadRequest(StartAfterEnd)
  {
    if endDate.None? && range.None? then BadRequest(EndOrRangeRequired)
    else if endDate.Some? && range.Some? then BadRequest(EndAndRangeNotAllowed)
    else if startDate > UpperBound(endDate, now) then BadRequest(StartAfterEnd)
    else Passed
  }

  /** With an end date the current time plays no part. */
  lemma ValidationIgnoresNowWithEndDate(startDate: int, endDate: int, range: Option<RangeUnit>, now1: int, now2: int)
    ensures ValidateDatesAndRange(startDate, Some(endDate), range, now1)
         == ValidateDatesAndRange(startDate, Some(endDate), range, now2)
  {
  }

  /** Moving the start earlier never turns a passing window into a failing one. */
  lemma ValidationMonotoneInStart(s1: int, s2: int, endDate: Option<int>, range: Option<RangeUnit>, now: int)
    requires s1 <= s2
    requires ValidateDatesAndRange(s2, endDate, range, now).Passed?
    ensures ValidateDatesAndRange(s1, endDate, range, now).Passed?
  {
  }

  /** What the global statistics route answers. */
  datatype GlobalStatisticsResponse = ValidationFailed(message: string) | NotFound

  /** The global statistics route: the query is checked, and a valid query is answered with not-found. */
  function GlobalStatistics(startDate: int, endDate: Option<int>, range: Option<RangeUnit>, now: int)
    : (resp: GlobalStatisticsResponse)
    ensures resp == NotFound <==> ValidateDatesAndRange(startDate, endDate, range, now).Passed?
    ensures resp.ValidationFailed? ==> resp.message == ValidateDatesAndRange(startDate, endDate, range, now).message
  {
    match ValidateDatesAndRange(startDate, endDate, range, now)
    case Passed => NotFound
    case BadRequest(message) => ValidationFailed(message)
  }
}
