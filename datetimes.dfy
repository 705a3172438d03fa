/** UTC calendar instants as System.DateTime exposes them: year, month, day
    and the ticks elapsed since midnight, ordered chronologically, with the
    calendar arithmetic the core uses (AddDays, AddMonths, AddYears). */
module DateTimes {
  import opened Common

  const TicksPerDay: int := 864_000_000_000

  datatype DateTime = DateTime(year: int, month: int, day: int, ticks: int)

  predicate IsLeapYear(y: int) {
    y % 4 == 0 && (y % 100 != 0 || y % 400 == 0)
  }

  function DaysInMonth(y: int, m: int): (n: int)
    requires 1 <= m <= 12
    ensures 28 <= n <= 31
  {
    if m == 2 then (if IsLeapYear(y) then 29 else 28)
    else if m == 4 || m == 6 || m == 9 || m == 11 then 30
    else 31
  }

  predicate Valid(d: DateTime) {
    1 <= d.month <= 12 && 1 <= d.day <= DaysInMonth(d.year, d.month) && 0 <= d.ticks < TicksPerDay
  }

  /** a < b: the chronological order, which on valid instants is the
      lexicographic order of (year, month, day, ticks). */
  predicate Before(a: DateTime, b: DateTime) {
    a.year < b.year
    || (a.year == b.year && a.month < b.month)
    || (a.year == b.year && a.month == b.month && a.day < b.day)
    || (a.year == b.year && a.month == b.month && a.day == b.day && a.ticks < b.ticks)
  }

  /** a <= b. */
  predicate NotAfter(a: DateTime, b: DateTime) {
    !Before(b, a)
  }

  lemma BeforeTransitive(a: DateTime, b: DateTime, c: DateTime)
    requires Before(a, b) && Before(b, c)
    ensures Before(a, c)
  {
  }

  lemma NotAfterTotal(a: DateTime, b: DateTime)
    ensures NotAfter(a, b) || NotAfter(b, a)
    ensures NotAfter(a, b) && NotAfter(b, a) ==> a == b
  {
  }

  /** Midnight of the first day of month m of year y: new DateTime(y, m, 1). */
  function FirstOfMonth(y: int, m: int): (d: DateTime)
    requires 1 <= m <= 12
    ensures Valid(d)
  {
    DateTime(y, m, 1, 0)
  }

  /** DateTime.AddMonths: the same day and time n months later, the day
      clamped to the length of the target month. */
  function AddMonths(d: DateTime, n: int): (r: DateTime)
    requires Valid(d)
    ensures Valid(r)
  {
    var total := d.year * 12 + (d.month - 1) + n;
    var y := total / 12;
    var m := total % 12 + 1;
    DateTime(y, m, Min(d.day, DaysInMonth(y, m)), d.ticks)
  }

  /** DateTime.AddYears: the same month, day and time n years later, 29 February
      becoming 28 February outside leap years. */
  function AddYears(d: DateTime, n: int): (r: DateTime)
    requires Valid(d)
    ensures Valid(r) && r.year == d.year + n && r.month == d.month
  {
    DateTime(d.year + n, d.month, Min(d.day, DaysInMonth(d.year + n, d.month)), d.ticks)
  }

  function NextDay(d: DateTime): (r: DateTime)
    requires Valid(d)
    ensures Valid(r)
  {
    if d.day < DaysInMonth(d.year, d.month) then d.(day := d.day + 1)
    else if d.month < 12 then DateTime(d.year, d.month + 1, 1, d.ticks)
    else DateTime(d.year + 1, 1, 1, d.ticks)
  }

  function PrevDay(d: DateTime): (r: DateTime)
    requires Valid(d)
    ensures Valid(r)
  {
    if d.day > 1 then d.(day := d.day - 1)
    else if d.month > 1 then DateTime(d.year, d.month - 1, DaysInMonth(d.year, d.month - 1), d.ticks)
    else DateTime(d.year - 1, 12, 31, d.ticks)
  }

  /** DateTime.AddDays for a whole number of days, one calendar day at a time. */
  function AddDays(d: DateTime, n: int): (r: DateTime)
    requires Valid(d)
    ensures Valid(r)
    decreases if n >= 0 then n else -n
  {
    if n == 0 then d
    else if n > 0 then NextDay(AddDays(d, n - 1))
    else PrevDay(AddDays(d, n + 1))
  }

  lemma AddMonthsOfFirstOfMonth(y: int, m: int)
    requires 1 <= m <= 12
    ensures AddMonths(FirstOfMonth(y, m), 1) == if m == 12 then FirstOfMonth(y + 1, 1) else FirstOfMonth(y, m + 1)
  {
  }

  /** Going back more days gives a strictly earlier instant. */
  lemma {:induction false} AddDaysBackwardsStrictlyEarlier(d: DateTime, a: int, b: int)
    requires Valid(d) && 0 <= a < b
    ensures Before(AddDays(d, -b), AddDays(d, -a))
    decreases b - a
  {
    assert AddDays(d, -b) == PrevDay(AddDays(d, -b + 1));
    if b - 1 > a {
      AddDaysBackwardsStrictlyEarlier(d, a, b - 1);
      BeforeTransitive(AddDays(d, -b), AddDays(d, -(b - 1)), AddDays(d, -a));
    }
  }
}
