/**
 * Calendar dates without a time of day. The tracker stores an entry's date
 * as a "yyyy-MM-dd" string and compares dates after normalising them to
 * midnight, which amounts to comparing (year, month, day) lexicographically.
 */
module Dates {

  datatype Date = Date(year: int, month: int, day: int)

  /** `a` is on or before `b`. */
  predicate Leq(a: Date, b: Date) {
    a.year < b.year || (a.year == b.year && (a.month < b.month || (a.month == b.month && a.day <= b.day)))
  }

  /** `a` is strictly before `b`. */
  predicate Before(a: Date, b: Date) {
    Leq(a, b) && a != b
  }

  /** `Leq` is a total order on dates. */
  lemma LeqIsTotalOrder()
    ensures forall a: Date :: Leq(a, a)
    ensures forall a: Date, b: Date :: Leq(a, b) && Leq(b, a) ==> a == b
    ensures forall a: Date, b: Date, c: Date :: Leq(a, b) && Leq(b, c) ==> Leq(a, c)
    ensures forall a: Date, b: Date :: Leq(a, b) || Leq(b, a)
  {
  }

  /** Gregorian leap years, as JavaScript's `Date` counts them. */
  predicate IsLeapYear(y: int) {
    (y % 4 == 0 && y % 100 != 0) || y % 400 == 0
  }

  function DaysInMonth(y: int, m: int): (n: int)
    requires 1 <= m <= 12
    ensures 28 <= n <= 31
  {
    if m == 2 then (if IsLeapYear(y) then 29 else 28)
    else if m == 4 || m == 6 || m == 9 || m == 11 then 30
    else 31
  }

  ghost predicate Valid(d: Date) {
    1 <= d.month <= 12 && 1 <= d.day <= DaysInMonth(d.year, d.month)
  }

  /** The calendar day before `d`. */
  function PreviousDay(d: Date): (r: Date)
    ensures Before(r, d)
    ensures Valid(d) ==> Valid(r)
  {
    if d.day > 1 then Date(d.year, d.month, d.day - 1)
    else if 1 < d.month <= 12 then Date(d.year, d.month - 1, DaysInMonth(d.year, d.month - 1))
    else Date(d.year - 1, 12, 31)
  }

  /** No valid date lies strictly between `PreviousDay(d)` and `d`. */
  lemma PreviousDayIsImmediate(d: Date, x: Date)
    requires Valid(d) && Valid(x) && Before(x, d)
    ensures Leq(x, PreviousDay(d))
  {
  }
}
