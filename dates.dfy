/** Calendar dates (java.time.LocalDate) as (year, month, day) triples, in LocalDate's order. */
module Dates {

  datatype Date = Date(year: int, month: int, day: int)

  /** LocalDate.isAfter: a is strictly later than b, comparing year, then month, then day. */
  predicate IsAfter(a: Date, b: Date) {
    a.year > b.year
    || (a.year == b.year && a.month > b.month)
    || (a.year == b.year && a.month == b.month && a.day > b.day)
  }

  /** a is on or before b. */
  predicate NotAfter(a: Date, b: Date) {
    !IsAfter(a, b)
  }

  /** The far-future bound of readDiary: LocalDate.ofYearDay(3050, 1), which is 3050-01-01. */
  const FarFutureBound: Date := Date(3050, 1, 1)

  /** IsAfter is a strict total order, so NotAfter is a total order and ranges behave as intervals. */
  lemma IsAfterIsStrictTotalOrder(a: Date, b: Date, c: Date)
    ensures !IsAfter(a, a)
    ensures IsAfter(a, b) ==> !IsAfter(b, a)
    ensures IsAfter(a, b) && IsAfter(b, c) ==> IsAfter(a, c)
    ensures a == b || IsAfter(a, b) || IsAfter(b, a)
  {
  }
}
