// The Gregorian calendar over all day numbers; day 0 is 1 January 1970.

module Calendar {
  import opened Division

  predicate Leap(y: int) {
    y % 4 == 0 && (y % 100 != 0 || y % 400 == 0)
  }

  // Leap years up to and including y, counted from year 1.
  function Leaps(y: int): int {
    y / 4 - y / 100 + y / 400
  }

  // The day number of 1 January.
  function YearStart(y: int): int {
    365 * (y - 1970) + Leaps(y - 1) - Leaps(1969)
  }

  function DaysInYear(y: int): nat {
    if Leap(y) then 366 else 365
  }

  function DaysIn(month: int, leap: bool): nat {
    if month == 2 then (if leap then 29 else 28)
    else if month in {4, 6, 9, 11} then 30
    else 31
  }

  // Days of the year before a month.
  function MonthStart(month: int, leap: bool): nat {
    if month <= 1 then 0 else MonthStart(month - 1, leap) + DaysIn(month - 1, leap)
  }

  datatype Date = Date(year: int, month: int, day: int)
  {
    predicate Valid() {
      1 <= month <= 12 && 1 <= day <= DaysIn(month, Leap(year))
    }
  }

  function DayNumber(d: Date): int {
    YearStart(d.year) + MonthStart(d.month, Leap(d.year)) + d.day - 1
  }

  lemma Centuries(y: int)
    ensures y % 100 == 0 ==> y % 4 == 0
    ensures y % 400 == 0 ==> y % 100 == 0
  {
    if y % 100 == 0 {
      assert y == y / 100 * 25 * 4;
      Multiple(y / 100, 4, 25);
    }
    if y % 400 == 0 {
      assert y == y / 400 * 4 * 100;
      Multiple(y / 400, 100, 4);
    }
  }

  lemma YearLength(y: int)
    ensures YearStart(y + 1) == YearStart(y) + DaysInYear(y)
  {
    Before(y, 4);
    Before(y, 100);
    Before(y, 400);
    Centuries(y);
  }

  lemma MonthLengths(leap: bool)
    ensures MonthStart(2, leap) == 31
    ensures MonthStart(3, leap) == if leap then 60 else 59
    ensures MonthStart(13, leap) == if leap then 366 else 365
  {
    assert MonthStart(1, leap) == 0;
    assert MonthStart(4, leap) == MonthStart(3, leap) + 31;
    assert MonthStart(5, leap) == MonthStart(4, leap) + 30;
    assert MonthStart(6, leap) == MonthStart(5, leap) + 31;
    assert MonthStart(7, leap) == MonthStart(6, leap) + 30;
    assert MonthStart(8, leap) == MonthStart(7, leap) + 31;
    assert MonthStart(9, leap) == MonthStart(8, leap) + 31;
    assert MonthStart(10, leap) == MonthStart(9, leap) + 30;
    assert MonthStart(11, leap) == MonthStart(10, leap) + 31;
    assert MonthStart(12, leap) == MonthStart(11, leap) + 30;
  }

  lemma {:induction false} MonthStartMonotone(a: int, b: int, leap: bool)
    requires 1 <= a <= b
    ensures MonthStart(a, leap) + (b - a) * 28 <= MonthStart(b, leap)
    decreases b - a
  {
    if a < b {
      MonthStartMonotone(a, b - 1, leap);
    }
  }

  // The year a day falls in, searched from a guess.
  function YearFrom(n: int, guess: int): (y: int)
    ensures YearStart(y) <= n < YearStart(y + 1)
    decreases if n < YearStart(guess) then YearStart(guess) - n
              else if n >= YearStart(guess + 1) then n - YearStart(guess + 1) + 1
              else 0
  {
    YearLength(guess);
    YearLength(guess + 1);
    YearLength(guess - 1);
    hide YearStart, Leap;
    if n < YearStart(guess) then YearFrom(n, guess - 1)
    else if n >= YearStart(guess + 1) then YearFrom(n, guess + 1)
    else guess
  }

  function YearOf(n: int): (y: int)
    ensures YearStart(y) <= n < YearStart(y + 1)
  {
    YearFrom(n, 1970)
  }

  // The month a day of the year falls in, searched upwards.
  function MonthFrom(ofYear: nat, leap: bool, m: int): (month: int)
    requires 1 <= m <= 12
    requires MonthStart(m, leap) <= ofYear < MonthStart(13, leap)
    ensures m <= month <= 12
    ensures MonthStart(month, leap) <= ofYear < MonthStart(month, leap) + DaysIn(month, leap)
    decreases 12 - m
  {
    if ofYear < MonthStart(m + 1, leap) then m else MonthFrom(ofYear, leap, m + 1)
  }

  function DateOf(n: int): (d: Date)
    ensures d.Valid()
    ensures d.year == YearOf(n)
    ensures DayNumber(d) == n
  {
    var y := YearOf(n);
    YearLength(y);
    MonthLengths(Leap(y));
    var ofYear := n - YearStart(y);
    var m := MonthFrom(ofYear, Leap(y), 1);
    Date(y, m, ofYear - MonthStart(m, Leap(y)) + 1)
  }

  lemma {:induction false} YearStartMonotone(a: int, b: int)
    requires a <= b
    ensures YearStart(a) + 365 * (b - a) <= YearStart(b) <= YearStart(a) + 366 * (b - a)
    decreases b - a
  {
    if a < b {
      YearStartMonotone(a, b - 1);
      YearLength(b - 1);
    }
  }

  lemma YearUnique(n: int, y: int)
    requires YearStart(y) <= n < YearStart(y + 1)
    ensures YearOf(n) == y
  {
    hide YearStart, Leap, YearFrom;
    var z := YearOf(n);
    if z < y {
      YearStartMonotone(z + 1, y);
    } else if z > y {
      YearStartMonotone(y + 1, z);
    }
  }

  lemma FirstMonth(leap: bool)
    ensures MonthStart(1, leap) == 0
  {
  }

  lemma NextMonth(m: int, leap: bool)
    requires 1 <= m
    ensures MonthStart(m + 1, leap) == MonthStart(m, leap) + DaysIn(m, leap)
  {
  }

  lemma MonthUnique(ofYear: nat, leap: bool, m: int)
    requires 1 <= m <= 12 && MonthStart(m, leap) <= ofYear < MonthStart(m, leap) + DaysIn(m, leap)
    ensures ofYear < MonthStart(13, leap) && MonthFrom(ofYear, leap, 1) == m
  {
    hide MonthFrom, MonthStart, DaysIn;
    NextMonth(m, leap);
    MonthStartMonotone(m + 1, 13, leap);
    FirstMonth(leap);
    var e := MonthFrom(ofYear, leap, 1);
    NextMonth(e, leap);
    if e < m {
      MonthStartMonotone(e + 1, m, leap);
    } else if e > m {
      MonthStartMonotone(m + 1, e, leap);
    }
  }

  // Every valid date is the date of its own day number, and of no other.
  lemma {:induction false} DateOfDayNumber(d: Date)
    requires d.Valid()
    ensures DateOf(DayNumber(d)) == d
  {
    hide YearStart, Leap, YearFrom, YearOf, MonthFrom, MonthStart;
    var ofYear := MonthStart(d.month, Leap(d.year)) + d.day - 1;
    MonthUnique(ofYear, Leap(d.year), d.month);
    MonthLengths(Leap(d.year));
    YearLength(d.year);
    YearUnique(DayNumber(d), d.year);
  }

  // Days of the week from Sunday; 1 January 1970 was a Thursday.
  function Weekday(n: int): (w: int)
    ensures 0 <= w < 7
  {
    (n + 4) % 7
  }

  // The rule a calendar is read by: the next day is the next in the month, or
  // the first of the next month, or the first of the next year.
  function DayAfter(d: Date): Date {
    if d.day < DaysIn(d.month, Leap(d.year)) then d.(day := d.day + 1)
    else if d.month < 12 then Date(d.year, d.month + 1, 1)
    else Date(d.year + 1, 1, 1)
  }

  lemma {:induction false} DatesFollowTheRule(n: int)
    ensures DateOf(n + 1) == DayAfter(DateOf(n))
    ensures Weekday(n + 1) == (Weekday(n) + 1) % 7
  {
    hide YearStart, Leap, YearOf, YearFrom, DateOf, MonthStart;
    var d := DateOf(n);
    var e := DayAfter(d);
    var leap := Leap(d.year);
    MonthLengths(leap);
    FirstMonth(Leap(d.year + 1));
    YearLength(d.year);
    NextMonth(d.month, leap);
    assert DayNumber(e) == n + 1;
    DateOfDayNumber(e);
  }

  lemma EpochNumber()
    ensures Date(1970, 1, 1).Valid() && DayNumber(Date(1970, 1, 1)) == 0
  {
    assert YearStart(1970) == 0;
  }

  lemma EpochDate()
    ensures DateOf(0) == Date(1970, 1, 1) && Weekday(0) == 4
  {
    hide DateOf, DayNumber, YearOf, YearFrom, YearStart;
    EpochNumber();
    DateOfDayNumber(Date(1970, 1, 1));
  }

  // ── days to be found ahead ─────────────────────────────────────────

  // The days of year y + 1 begin within 366 days of any day of year y and end
  // within 732.
  lemma NextYear(n: int, m: int, day: int)
    requires var d := Date(YearOf(n) + 1, m, day); d.Valid()
    ensures var d := Date(YearOf(n) + 1, m, day);
            n < DayNumber(d) <= n + 731
  {
    hide YearStart, Leap, YearOf, YearFrom, MonthStart, DaysIn;
    var y := YearOf(n);
    YearLength(y);
    YearLength(y + 1);
    var leap := Leap(y + 1);
    MonthLengths(leap);
    FirstMonth(leap);
    MonthStartMonotone(1, m, leap);
    MonthStartMonotone(m + 1, 13, leap);
    NextMonth(m, leap);
  }

  // One of the first seven days of a month has the weekday wanted.
  function FirstWeekday(y: int, m: int, w: int): (day: int)
    requires 0 <= w < 7
    ensures 1 <= day <= 7
    ensures Weekday(DayNumber(Date(y, m, day))) == w
  {
    var first := DayNumber(Date(y, m, 1));
    var day := (w - Weekday(first)) % 7 + 1;
    assert DayNumber(Date(y, m, day)) == first + day - 1;
    ShiftWeekday(first, w);
    day
  }

  lemma ShiftWeekday(n: int, w: int)
    requires 0 <= w < 7
    ensures Weekday(n + (w - Weekday(n)) % 7) == w
  {
    SevenShift(n + 4, w);
  }

  lemma SevenShift(a: int, w: int)
    requires 0 <= w < 7
    ensures (a + (w - a % 7) % 7) % 7 == w
  {
    var q, r := a / 7, a % 7;
    assert a == q * 7 + r;
    if w >= r {
      Unique(w - r, 7, 0, w - r);
      Unique(a + (w - r), 7, q, w);
    } else {
      Unique(w - r, 7, -1, w - r + 7);
      Unique(a + (w - r + 7), 7, q + 1, w);
    }
  }

  // The day that is 29 February in a leap year and 1 March in others.
  function Slot(y: int): int {
    YearStart(y) + 59
  }

  lemma LeapDayNumber(y: int)
    requires Leap(y)
    ensures Date(y, 2, 29).Valid() && DayNumber(Date(y, 2, 29)) == Slot(y)
  {
    MonthLengths(true);
  }

  lemma CommonYear(y: int)
    requires y % 4 != 0
    ensures YearStart(y + 1) == YearStart(y) + 365
  {
    YearLength(y);
  }

  lemma FourYears(y: int)
    requires y % 4 == 0
    ensures Slot(y) + 1460 <= Slot(y + 4) <= Slot(y) + 1461
  {
    hide YearStart, Leap;
    YearLength(y);
    CommonYear(y + 1);
    CommonYear(y + 2);
    CommonYear(y + 3);
  }

  // Every fourth year's slot is reached within 1,460 days, and the one before
  // it has passed.
  lemma SlotAhead(n: int) returns (y: int)
    ensures y % 4 == 0 && n <= Slot(y) <= n + 1460 && Slot(y - 4) < n
  {
    hide YearStart, YearOf, YearFrom, Leap;
    var z := YearOf(n);
    y := if z % 4 == 0 && n <= YearStart(z) + 59 then z else z + 4 - z % 4;
    assert z <= y <= z + 4 && y % 4 == 0;
    FourYears(y);
    FourYears(y - 4);
    YearLength(z);
    if y > z {
      if y < z + 4 { CommonYear(y - 1); }
      if y < z + 3 { CommonYear(y - 2); }
      if y < z + 2 { CommonYear(y - 3); }
      YearStartMonotone(y - 4, z);
    } else {
      YearStartMonotone(y - 3, z);
    }
  }

  // No fourth year whose slot lies between two days is one the century rule
  // takes its leap day from.
  ghost predicate NoLeapDaySkipped(from: int, upTo: int) {
    forall y :: y % 4 == 0 && from <= Slot(y) <= upTo ==> Leap(y)
  }
}
