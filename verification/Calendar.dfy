/** Calendar dates, and the numbers that stand for them where lists are sorted. */
module Calendar {

  datatype Date = Date(year: nat, month: nat, day: nat)

  predicate LeapYear(y: nat) { y % 4 == 0 && (y % 100 != 0 || y % 400 == 0) }

  function DaysInMonth(y: nat, m: nat): nat {
    if m == 2 then (if LeapYear(y) then 29 else 28)
    else if m in {4, 6, 9, 11} then 30 else 31
  }

  predicate ValidDate(d: Date) {
    1 <= d.year <= 9999 && 1 <= d.month <= 12 && 1 <= d.day <= DaysInMonth(d.year, d.month)
  }

  /** A value of a `date` column. */
  type Day = d: Date | ValidDate(d) witness Date(2000, 1, 1)

  predicate Earlier(a: Date, b: Date) {
    a.year < b.year || (a.year == b.year && (a.month < b.month || (a.month == b.month && a.day < b.day)))
  }

  /** yyyymmdd. */
  function DateNumber(d: Date): nat { d.year * 10000 + d.month * 100 + d.day }

  function NumberDate(n: int): Day {
    if n < 0 then Date(1, 1, 1)
    else
      var d := Date(n / 10000, n / 100 % 100, n % 100);
      if ValidDate(d) then d else Date(1, 1, 1)
  }

  lemma SplitNumber(y: nat, m: nat, d: nat)
    requires m < 100 && d < 100
    ensures (y * 10000 + m * 100 + d) % 100 == d && (y * 100 + m) % 100 == m
    ensures (y * 10000 + m * 100 + d) / 10000 == y
  {
  }

  /** The number of a day stands for that day alone. */
  lemma DaysAreNumbers(d: Day)
    ensures NumberDate(DateNumber(d)) == d
  {
    assert DateNumber(d) / 100 == d.year * 100 + d.month;
    SplitNumber(d.year, d.month, d.day);
  }

  /** The numbers are ordered as the calendar is. */
  lemma NumbersOrderDays(a: Day, b: Day)
    ensures DateNumber(a) < DateNumber(b) <==> Earlier(a, b)
  {
  }
}
