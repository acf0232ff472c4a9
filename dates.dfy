/**
 * Dates as JavaScript represents them: a count of milliseconds since 1970-01-01T00:00Z
 * within the TimeClip range, and the calendar date that `toISOString().split('T')[0]`
 * extracts from one, numbered as days since 1970-01-01 (UTC).
 */
module Dates {
  import opened Wrappers
  import opened JsValues

  const MsPerDay := 86400000
  const MaxTime := 8640000000000000

  /** A valid (non-NaN) Date value. */
  type Instant = t: int | -MaxTime <= t <= MaxTime

  /** The abstract `new Date(string)`; `None` is an Invalid Date. */
  type DateParser = string -> Option<Instant>

  /** `new Date(v)` for a body field: `new Date(undefined)` is invalid, anything else is parsed as a string. */
  function NewDate(parseDate: DateParser, v: Field): (r: Option<Instant>)
    ensures v.Absent? ==> r.None?
    ensures v.Scalar? ==> r == parseDate(v.text)
    ensures v.Seq? ==> r == parseDate(Join(v.items))
  {
    if v.Absent? then None else parseDate(ToJsString(v))
  }

  /** The UTC calendar day of an instant (the division rounds toward negative infinity). */
  function UtcDay(t: Instant): int {
    t / MsPerDay
  }

  /** `toISOString().split('T')[0]`; `None` is the RangeError an Invalid Date throws. */
  function DateOnly(d: Option<Instant>): (r: Option<int>)
    ensures r.Some? <==> d.Some?
    ensures d.Some? ==> OnDay(d.value, r.value)
  {
    match d
    case None => None
    case Some(t) => UtcDayIsCalendarDay(t, UtcDay(t)); Some(UtcDay(t))
  }

  /** `t` lies on UTC day `d`, at any time of that day. */
  ghost predicate OnDay(t: int, d: int) {
    d * MsPerDay <= t < d * MsPerDay + MsPerDay
  }

  /** The date-only value is exactly the day on which the instant falls. */
  lemma UtcDayIsCalendarDay(t: Instant, d: int)
    ensures UtcDay(t) == d <==> OnDay(t, d)
  {
  }

  /** Two instants have the same date-only value exactly when they fall on the same UTC day, whatever their times of day. */
  lemma SameDateOnly(a: Instant, b: Instant)
    ensures DateOnly(Some(a)) == DateOnly(Some(b)) <==> exists d :: OnDay(a, d) && OnDay(b, d)
  {
  }
}
