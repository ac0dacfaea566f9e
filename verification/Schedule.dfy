// When a schedule fires next.

module Schedule {
  import opened Wrappers
  import opened Division
  import opened Calendar
  import opened Cron
  import opened Parts
  import opened Characters

  // Instants are nanoseconds since the start of 1970 in UTC, and a zone is a
  // whole number of minutes ahead of UTC.
  type Instant = int

  const MINUTE: int := 60_000_000_000
  const DAY: int := 1_440
  // How far ahead the search looks, in minutes.
  const WINDOW: int := 366 * 4 * DAY

  // Minutes of local time since the start of 1970.
  function LocalMinute(at: Instant, offset: int): int {
    at / MINUTE + offset
  }

  function InstantOf(t: int, offset: int): Instant {
    (t - offset) * MINUTE
  }

  lemma InstantOfMinute(t: int, offset: int, at: Instant)
    ensures LocalMinute(InstantOf(t, offset), offset) == t
    ensures InstantOf(t, offset) <= at <==> t <= LocalMinute(at, offset)
  {
    var q := t - offset;
    Unique(q * MINUTE, MINUTE, q, 0);
  }

  // Whether a minute of local time is a firing time.
  predicate Fires(f: Fields, t: int) {
    var d := DateOf(t / DAY);
    f.Matches(d.month, d.day, Weekday(t / DAY), t % DAY / 60, t % 60)
  }

  predicate FiresOnDay(f: Fields, day: int) {
    var d := DateOf(day);
    && 0 <= d.month && d.month in f.month
    && (match (f.domRestricted, f.dowRestricted)
        case (true, true) => d.day in f.dom || Weekday(day) in f.dow
        case (true, false) => d.day in f.dom
        case (false, true) => Weekday(day) in f.dow
        case (false, false) => true)
  }

  predicate FiresAtTime(f: Fields, minute: int) {
    0 <= minute < DAY && minute / 60 in f.hour && minute % 60 in f.minute
  }

  lemma DayAndTime(f: Fields, day: int, minute: int)
    requires 0 <= minute < DAY
    ensures (day * DAY + minute) / DAY == day && (day * DAY + minute) % DAY == minute
    ensures Fires(f, day * DAY + minute) <==> FiresOnDay(f, day) && FiresAtTime(f, minute)
  {
    var t := day * DAY + minute;
    SplitDay(day, minute);
    assert t % 60 == minute % 60;
    hide DateOf, Weekday;
  }

  lemma SplitDay(day: int, minute: int)
    requires 0 <= minute < DAY
    ensures (day * DAY + minute) / DAY == day && (day * DAY + minute) % DAY == minute
    ensures (day * DAY + minute) % 60 == minute % 60
  {
    var t := day * DAY + minute;
    Unique(t, DAY, day, minute);
    assert minute == minute / 60 * 60 + minute % 60;
    Unique(t, 60, day * 24 + minute / 60, minute % 60);
  }

  // ── the search ─────────────────────────────────────────────────────

  // The first firing minute from t on and before limit.
  function FirstFrom(f: Fields, t: int, limit: int): Option<int>
    decreases limit - t
  {
    if t >= limit then None
    else if Fires(f, t) then Some(t)
    else FirstFrom(f, t + 1, limit)
  }

  function NextMinute(f: Fields, after: Instant, offset: int): Option<int> {
    var t := LocalMinute(after, offset) + 1;
    FirstFrom(f, t, t + WINDOW)
  }

  function Next(f: Fields, after: Instant, offset: int): Option<Instant> {
    match NextMinute(f, after, offset)
    case None => None
    case Some(t) => Some(InstantOf(t, offset))
  }

  lemma {:induction false} FirstFromMeaning(f: Fields, t: int, limit: int)
    ensures match FirstFrom(f, t, limit)
            case None => forall u :: t <= u < limit ==> !Fires(f, u)
            case Some(r) => t <= r < limit && Fires(f, r) && forall u :: t <= u < r ==> !Fires(f, u)
    decreases limit - t
  {
    hide Fires;
    if t < limit && !Fires(f, t) {
      FirstFromMeaning(f, t + 1, limit);
    }
  }

  // The search itself, minute by minute.
  method NextAfter(f: Fields, after: Instant, offset: int) returns (r: Option<Instant>)
    ensures r == Next(f, after, offset)
  {
    hide Fires;
    var t := LocalMinute(after, offset) + 1;
    var limit := t + WINDOW;
    while t < limit
      invariant FirstFrom(f, t, limit) == NextMinute(f, after, offset)
      decreases limit - t
    {
      if Fires(f, t) {
        return Some(InstantOf(t, offset));
      }
      t := t + 1;
    }
    return None;
  }

  // An instant at which the schedule fires.
  ghost predicate Firing(f: Fields, offset: int, at: Instant) {
    exists t: int :: IsMinute(at, t, offset) && Fires(f, t)
  }

  ghost predicate IsMinute(at: Instant, t: int, offset: int) {
    at == InstantOf(t, offset)
  }

  lemma FiringMinute(f: Fields, offset: int, at: Instant)
    ensures Firing(f, offset, at) <==> at == InstantOf(LocalMinute(at, offset), offset) && Fires(f, LocalMinute(at, offset))
  {
    hide Fires;
    if Firing(f, offset, at) {
      var t: int :| IsMinute(at, t, offset) && Fires(f, t);
      InstantOfMinute(t, offset, at);
    }
    if at == InstantOf(LocalMinute(at, offset), offset) {
      assert IsMinute(at, LocalMinute(at, offset), offset);
    }
  }

  // A schedule fires at whole minutes: at the instant when clocks in its zone,
  // which are `offset` minutes ahead of UTC, show a minute it fires in.
  lemma {:induction false} FiringByTheClock(f: Fields, offset: int, t: int, at: Instant)
    ensures Firing(f, offset, (t - offset) * 60_000_000_000) <==> Fires(f, t)
    ensures at % 60_000_000_000 != 0 ==> !Firing(f, offset, at)
  {
    hide Fires;
    FiringMinute(f, offset, InstantOf(t, offset));
    FiringMinute(f, offset, at);
    InstantOfMinute(t, offset, InstantOf(t, offset));
    Unique((LocalMinute(at, offset) - offset) * MINUTE, MINUTE, LocalMinute(at, offset) - offset, 0);
  }

  // The instant found is a firing strictly after the one given, and no firing
  // lies between them.
  lemma {:induction false} NextIsLeast(f: Fields, after: Instant, offset: int)
    ensures Next(f, after, offset).Some? ==>
              var r := Next(f, after, offset).value;
              && r > after && Firing(f, offset, r)
              && forall g: Instant :: Firing(f, offset, g) && g > after ==> g >= r
    ensures Next(f, after, offset).None? ==>
              forall g: Instant :: Firing(f, offset, g) && g > after ==> LocalMinute(g, offset) > LocalMinute(after, offset) + WINDOW
  {
    hide Fires;
    var t := LocalMinute(after, offset) + 1;
    FirstFromMeaning(f, t, t + WINDOW);
    forall g: Instant | Firing(f, offset, g) && g > after
      ensures match NextMinute(f, after, offset)
              case None => LocalMinute(g, offset) > LocalMinute(after, offset) + WINDOW
              case Some(r) => g >= InstantOf(r, offset)
    {
      FiringMinute(f, offset, g);
      var u := LocalMinute(g, offset);
      InstantOfMinute(u, offset, after);
      if NextMinute(f, after, offset).Some? {
        InstantOfMinute(NextMinute(f, after, offset).value, offset, g);
      }
    }
    if NextMinute(f, after, offset).Some? {
      var r := NextMinute(f, after, offset).value;
      InstantOfMinute(r, offset, after);
      assert IsMinute(InstantOf(r, offset), r, offset);
    }
  }

  // ── what an expression says ────────────────────────────────────────

  // When a schedule that parses fires, in terms of its five words: at the
  // minutes and hours named, in a month named, and on the days its third and
  // fifth words name. A star there names no day by itself, and with two others
  // either may.
  lemma {:induction false} FiresExactly(expr: string, t: int)
    requires Parsed(expr).Ok?
    ensures |Words(expr)| == 5
    ensures var ws, date, weekday := Words(expr), DateOf(t / DAY), Weekday(t / DAY);
            var minutes, hours := FieldSet(ws[0], 0, 59, "minute"), FieldSet(ws[1], 0, 23, "hour");
            var days, months, weekdays := FieldSet(ws[2], 1, 31, "day of month"), FieldSet(MonthSpec(ws[3]), 1, 12, "month"), DowSet(ws[4]);
            && minutes.Ok? && hours.Ok? && days.Ok? && months.Ok? && weekdays.Ok?
            && (Fires(Parsed(expr).value, t) <==>
                  && t % DAY % 60 in minutes.value && t % DAY / 60 in hours.value && date.month in months.value
                  && (ws[2] == "*" && ws[4] != "*" ==> weekday in weekdays.value)
                  && (ws[2] != "*" && ws[4] == "*" ==> date.day in days.value)
                  && (ws[2] != "*" && ws[4] != "*" ==> date.day in days.value || weekday in weekdays.value))
  {
    hide FieldSet, DowSet, Words, MonthSpec, DateOf;
    SplitDay(t / DAY, t % DAY);
    assert DateOf(t / DAY).Valid();
    FieldsOf(expr);
    StarsOf(expr);
    hide Parsed;
  }

  // ── what the search misses ─────────────────────────────────────────

  // Some minute of all time is a firing time.
  ghost predicate Satisfiable(f: Fields) {
    exists t: int :: Fires(f, t)
  }

  // The schedule names some day that exists: a month of the year and, when it
  // goes by days of the month alone, a day that month can have.
  predicate NamesADay(f: Fields) {
    exists m :: m in f.month && NamesADayIn(f, m)
  }

  predicate NamesADayIn(f: Fields, m: nat) {
    && 1 <= m <= 12
    && (f.domRestricted && !f.dowRestricted ==> exists d :: d in f.dom && 1 <= d <= DaysIn(m, true))
  }

  // A schedule can fire at all exactly when it does.
  lemma {:induction false} SatisfiableExactly(f: Fields)
    requires f.WellFormed()
    ensures Satisfiable(f) <==> NamesADay(f)
  {
    hide DateOf, Fires, YearOf, YearStart, Leap;
    if Satisfiable(f) {
      var t: int :| Fires(f, t);
      MinuteOfDay(f, t);
      NamedByFiring(f, t / DAY);
    }
    if NamesADay(f) {
      var m: nat :| m in f.month && NamesADayIn(f, m);
      var day := DayNamed(f, m);
      var minute := SomeTime(f);
      DayAndTime(f, day, minute);
    }
  }

  lemma NamedByFiring(f: Fields, day: int)
    requires FiresOnDay(f, day)
    ensures NamesADay(f)
  {
    hide YearOf, YearStart;
    var d := DateOf(day);
    assert d.Valid() && d.day <= DaysIn(d.month, true);
    assert NamesADayIn(f, d.month);
  }

  // In the leap year 2000 it fires on a day of that month.
  lemma DayNamed(f: Fields, m: nat) returns (day: int)
    requires f.WellFormed() && m in f.month && NamesADayIn(f, m)
    ensures FiresOnDay(f, day)
  {
    assert Leap(2000);
    hide YearOf, YearStart, MonthStart, DateOf, Leap;
    var date: Date;
    if f.dowRestricted {
      var w :| w in f.dow;
      date := Date(2000, m, FirstWeekday(2000, m, w));
    } else if !f.domRestricted {
      date := Date(2000, m, 1);
    } else {
      var d :| d in f.dom && 1 <= d <= DaysIn(m, true);
      date := Date(2000, m, d);
    }
    assert date.Valid();
    DateOfDayNumber(date);
    day := DayNumber(date);
  }

  // The only real day the schedule names is 29 February.
  predicate LeapDayOnly(f: Fields) {
    && f.domRestricted && !f.dowRestricted
    && forall m, d :: m in f.month && d in f.dom && 1 <= m <= 12 && 1 <= d <= DaysIn(m, true) ==> m == 2 && d == 29
  }

  lemma SomeTime(f: Fields) returns (minute: int)
    requires f.WellFormed()
    ensures FiresAtTime(f, minute)
  {
    var h :| h in f.hour;
    var m :| m in f.minute;
    minute := h * 60 + m;
    Unique(minute, 60, h, m);
  }

  // A schedule that ever fires, and not on leap days alone, fires on a day of
  // the year after any given day.
  lemma DayWithinTwoYears(f: Fields, n: int, when: int) returns (day: int)
    requires f.WellFormed() && FiresOnDay(f, when) && !LeapDayOnly(f)
    ensures n < day <= n + 731 && FiresOnDay(f, day)
  {
    hide YearOf, YearStart, Leap, MonthStart;
    var y := YearOf(n) + 1;
    var m := DateOf(when).month;
    assert 1 <= m <= 12 && 28 <= DaysIn(m, Leap(y));
    var date: Date;
    if f.dowRestricted {
      var w :| w in f.dow;
      date := Date(y, m, FirstWeekday(y, m, w));
    } else if !f.domRestricted {
      date := Date(y, m, 1);
    } else {
      var m', d' := NamedDay(f);
      assert 1 <= d' <= DaysIn(m', Leap(y));
      date := Date(y, m', d');
    }
    assert date.year == y && date.Valid();
    day := DayNumber(date);
    NextYear(n, date.month, date.day);
    DateOfDayNumber(date);
  }

  // A month and day the schedule names that every year has.
  lemma NamedDay(f: Fields) returns (m: nat, d: nat)
    requires f.domRestricted && !f.dowRestricted && !LeapDayOnly(f)
    ensures m in f.month && d in f.dom && 1 <= m <= 12 && forall leap :: 1 <= d <= DaysIn(m, leap)
  {
    m, d :| m in f.month && d in f.dom && 1 <= m <= 12 && 1 <= d <= DaysIn(m, true) && !(m == 2 && d == 29);
  }

  // A leap day with a firing time on it lies inside the window that opens at
  // the minute t.
  ghost predicate LeapDayInWindow(f: Fields, t: int) {
    exists y: int, minute: int ::
      Leap(y) && FiresAtTime(f, minute) && InWindow(t, DayNumber(Date(y, 2, 29)) * DAY + minute)
  }

  ghost predicate InWindow(t: int, u: int) {
    t <= u < t + WINDOW
  }

  lemma LeapDayFires(f: Fields, day: int)
    requires LeapDayOnly(f) && FiresOnDay(f, day)
    ensures var d := DateOf(day); d.month == 2 && d.day == 29 && Leap(d.year)
    ensures 2 in f.month && 29 in f.dom
  {
    hide YearOf, YearStart, MonthStart, Weekday;
    var d := DateOf(day);
    assert d.Valid();
    assert d.day <= DaysIn(d.month, true);
  }

  lemma FoundInWindow(f: Fields, t: int, u: int)
    requires InWindow(t, u) && Fires(f, u)
    ensures FirstFrom(f, t, t + WINDOW).Some?
  {
    FirstFromMeaning(f, t, t + WINDOW);
  }

  // The search answers exactly when the schedule names a day that exists and,
  // if leap days are the only days it names, one of them is inside the window.
  lemma {:induction false} FoundExactly(f: Fields, after: Instant, offset: int)
    requires f.WellFormed()
    ensures Next(f, after, offset).Some?
            <==> NamesADay(f) && (LeapDayOnly(f) ==> LeapDayInWindow(f, LocalMinute(after, offset) + 1))
  {
    hide NamesADay, LeapDayOnly, LeapDayInWindow, FirstFrom, Fires;
    SatisfiableExactly(f);
    var t := LocalMinute(after, offset) + 1;
    FirstFromMeaning(f, t, t + WINDOW);
    if NextMinute(f, after, offset).Some? {
      var u := NextMinute(f, after, offset).value;
      assert Satisfiable(f);
      if LeapDayOnly(f) {
        LeapDayFound(f, t, u);
      }
    }
    if Satisfiable(f) && (LeapDayOnly(f) ==> LeapDayInWindow(f, t)) {
      var u := FoundAhead(f, t);
      FoundInWindow(f, t, u);
    }
  }

  lemma FoundAhead(f: Fields, t: int) returns (u: int)
    requires f.WellFormed() && Satisfiable(f) && (LeapDayOnly(f) ==> LeapDayInWindow(f, t))
    ensures InWindow(t, u) && Fires(f, u)
  {
    hide LeapDayOnly, LeapDayInWindow, DateOf, Fires, FiresOnDay, FiresAtTime;
    var when: int :| Fires(f, when);
    MinuteOfDay(f, when);
    if LeapDayOnly(f) {
      u := LeapDayToFind(f, t, when);
    } else {
      var day := DayWithinTwoYears(f, t / DAY, when / DAY);
      var minute := SomeTime(f);
      u := day * DAY + minute;
      TwoYearsInWindow(f, t, day, minute);
    }
  }

  lemma TwoYearsInWindow(f: Fields, t: int, day: int, minute: int)
    requires t / DAY < day <= t / DAY + 731 && FiresOnDay(f, day) && FiresAtTime(f, minute)
    ensures InWindow(t, day * DAY + minute) && Fires(f, day * DAY + minute)
  {
    DayAndTime(f, day, minute);
  }

  lemma MinuteOfDay(f: Fields, t: int)
    ensures Fires(f, t) <==> FiresOnDay(f, t / DAY) && FiresAtTime(f, t % DAY)
    ensures t == t / DAY * DAY + t % DAY
  {
    DayAndTime(f, t / DAY, t % DAY);
  }

  lemma LeapDayFound(f: Fields, t: int, u: int)
    requires LeapDayOnly(f) && Fires(f, u) && InWindow(t, u)
    ensures LeapDayInWindow(f, t)
  {
    hide Leap, DayNumber, DateOf, Fires, FiresOnDay, FiresAtTime, LeapDayOnly;
    MinuteOfDay(f, u);
    LeapDayFires(f, u / DAY);
    var d := DateOf(u / DAY);
    assert d == Date(d.year, 2, 29);
    assert DayNumber(Date(d.year, 2, 29)) == u / DAY;
  }

  lemma LeapDayToFind(f: Fields, t: int, when: int) returns (u: int)
    requires LeapDayOnly(f) && FiresOnDay(f, when / DAY) && LeapDayInWindow(f, t)
    ensures InWindow(t, u) && Fires(f, u)
  {
    hide LeapDayOnly, DateOf, DayNumber, Leap, Fires, FiresOnDay, FiresAtTime;
    LeapDayFires(f, when / DAY);
    var y: int, minute: int :|
      Leap(y) && FiresAtTime(f, minute) && InWindow(t, DayNumber(Date(y, 2, 29)) * DAY + minute);
    u := DayNumber(Date(y, 2, 29)) * DAY + minute;
    LeapDayFiresThen(f, y, minute);
  }

  // A time of day on a fourth year's slot comes round within the window, first
  // in the year y.
  lemma SlotInWindow(t: int, minute: int) returns (y: int)
    requires 0 <= minute < DAY
    ensures y % 4 == 0 && t / DAY <= Slot(y) <= t / DAY + 1461
    ensures InWindow(t, Slot(y) * DAY + minute)
    ensures forall x :: x % 4 == 0 && Slot(x) * DAY + minute >= t ==> x >= y
  {
    hide Slot;
    var n := t / DAY;
    y := SlotAhead(n);
    if Slot(y) * DAY + minute < t {
      FourYears(y);
      y := y + 4;
    }
    assert Slot(y - 4) * DAY + minute < t;
    forall x | x % 4 == 0 && Slot(x) * DAY + minute >= t
      ensures x >= y
    {
      if x < y {
        SlotMonotone(x, y - 4);
      }
    }
  }

  lemma SlotMonotone(x: int, y: int)
    requires x <= y
    ensures Slot(x) <= Slot(y)
  {
    hide YearStart;
    YearStartMonotone(x, y);
  }

  // When the window skips no leap day, the search finds a firing exactly when
  // the schedule can ever fire.
  lemma {:induction false} FoundWhenSatisfiable(f: Fields, after: Instant, offset: int)
    requires f.WellFormed()
    requires var day := (LocalMinute(after, offset) + 1) / DAY; NoLeapDaySkipped(day, day + 1463)
    ensures Next(f, after, offset).Some? <==> NamesADay(f)
  {
    hide LeapDayOnly, DateOf, DayNumber, Leap, FirstFrom, FiresOnDay, YearOf, Slot, NamesADay;
    var t := LocalMinute(after, offset) + 1;
    FoundExactly(f, after, offset);
    var minute := SomeTime(f);
    var y := SlotInWindow(t, minute);
    LeapDayNumber(y);
    assert InWindow(t, DayNumber(Date(y, 2, 29)) * DAY + minute);
  }

  // Around 2100 it does not: a schedule for 29 February alone is found nothing
  // for from any instant between 1 March 2096 and 1 January 2100, although it
  // fires again in 2104.
  lemma {:induction false} CenturyGap(f: Fields, after: Instant, offset: int)
    requires f.WellFormed() && LeapDayOnly(f) && 2 in f.month && 29 in f.dom
    requires var day := (LocalMinute(after, offset) + 1) / DAY;
             DayNumber(Date(2096, 3, 1)) <= day <= DayNumber(Date(2100, 1, 1))
    ensures Next(f, after, offset).None? && Satisfiable(f)
    ensures exists g: Instant :: Firing(f, offset, g) && g > after
  {
    hide NamesADay, LeapDayOnly, DateOf, DayNumber, Leap, FirstFrom, Fires, FiresOnDay, YearOf;
    var t := LocalMinute(after, offset) + 1;
    var n := t / DAY;
    FoundExactly(f, after, offset);
    GapDays();
    if LeapDayInWindow(f, t) {
      var y: int, minute: int :|
        Leap(y) && FiresAtTime(f, minute) && InWindow(t, DayNumber(Date(y, 2, 29)) * DAY + minute);
      NoLeapDayInGap(y, n);
    }
    var minute := SomeTime(f);
    LeapDayFiresThen(f, 2104, minute);
    var u := DayNumber(Date(2104, 2, 29)) * DAY + minute;
    InstantOfMinute(u, offset, after);
    LeapDayNumber(2104);
    assert u > LocalMinute(after, offset);
    assert IsMinute(InstantOf(u, offset), u, offset);
    assert Firing(f, offset, InstantOf(u, offset));
  }

  lemma LeapDayFiresThen(f: Fields, y: int, minute: int)
    requires LeapDayOnly(f) && 2 in f.month && 29 in f.dom
    requires Leap(y) && FiresAtTime(f, minute)
    ensures Fires(f, DayNumber(Date(y, 2, 29)) * DAY + minute)
  {
    var d := Date(y, 2, 29);
    DateOfDayNumber(d);
    hide DateOf, DayNumber;
    DayAndTime(f, DayNumber(d), minute);
  }

  lemma GapDays()
    ensures Leap(2104) && Leap(2096)
    ensures DayNumber(Date(2096, 3, 1)) == YearStart(2096) + 60
    ensures DayNumber(Date(2100, 1, 1)) == YearStart(2096) + 1461
    ensures YearStart(2104) == YearStart(2096) + 2921
  {
    MonthLengths(true);
    MonthLengths(false);
    assert MonthStart(1, Leap(2100)) == 0;
  }

  lemma NoLeapDayInGap(y: int, n: int)
    requires Leap(y)
    requires YearStart(2096) + 60 <= n <= YearStart(2096) + 1461
    ensures DayNumber(Date(y, 2, 29)) < n || DayNumber(Date(y, 2, 29)) > n + 1464
  {
    LeapDayNumber(y);
    GapDays();
    hide YearStart, DayNumber;
    if y <= 2096 {
      YearStartMonotone(y, 2096);
    } else if y >= 2104 {
      YearStartMonotone(2104, y);
    }
  }

  // ── a schedule that is found nothing for ───────────────────────────

  lemma WordAndSpace(w: string, rest: string)
    requires Word(w)
    ensures Words(w + (" " + rest)) == [w] + Words(rest)
  {
    assert IsWhite(' ') && " " == [' '];
    hide Words, RunLength, IsWhite;
    SpaceThenWord(' ', rest);
    WordThenRest(w, " " + rest);
  }

  lemma FiveWords(a: string, b: string, c: string, d: string, e: string)
    requires Word(a) && Word(b) && Word(c) && Word(d) && Word(e)
    ensures Words(a + (" " + (b + (" " + (c + (" " + (d + (" " + (e + ""))))))))) == [a, b, c, d, e]
  {
    hide Words, RunLength, IsWhite, Word;
    NoWords();
    WordThenRest(e, "");
    WordAndSpace(d, e + "");
    WordAndSpace(c, d + (" " + (e + "")));
    WordAndSpace(b, c + (" " + (d + (" " + (e + "")))));
    WordAndSpace(a, b + (" " + (c + (" " + (d + (" " + (e + "")))))));
  }

  // The schedule of a leap day at midnight parses, and names nothing else.
  lemma {:induction false} LeapDayExpression()
    ensures Parsed("0 0 29 2 *").Ok?
    ensures var f := Parsed("0 0 29 2 *").value;
            f.WellFormed() && LeapDayOnly(f) && 2 in f.month && 29 in f.dom
  {
    LeapDayWords();
    LeapDayFields();
    hide Words, FieldSet, DowSet, MonthSpec;
    ParsedWellFormed("0 0 29 2 *");
  }

  lemma LeapDayWords()
    ensures Words("0 0 29 2 *") == ["0", "0", "29", "2", "*"]
  {
    SpelledOut();
    AreWords();
    hide Words, Word;
    FiveWords("0", "0", "29", "2", "*");
  }

  lemma AreWords()
    ensures Word("0") && Word("2") && Word("29") && Word("*")
  {
  }

  lemma SpelledOut()
    ensures "0" + (" " + ("0" + (" " + ("29" + (" " + ("2" + (" " + ("*" + "")))))))) == "0 0 29 2 *"
  {
    assert "2" + (" " + ("*" + "")) == "2 *";
    assert "29" + (" " + "2 *") == "29 2 *";
    assert "0" + (" " + "29 2 *") == "0 29 2 *";
    assert "0" + (" " + "0 29 2 *") == "0 0 29 2 *";
  }

  lemma LeapDayFields()
    ensures FieldSet("0", 0, 59, "minute") == Ok({0}) && FieldSet("0", 0, 23, "hour") == Ok({0})
    ensures FieldSet("29", 1, 31, "day of month") == Ok({29})
    ensures FieldSet(MonthSpec("2"), 1, 12, "month") == Ok({2})
    ensures DowSet("*").Ok?
  {
    Digit0();
    Digit2();
    Digits29();
    PlainMonth();
    PlainStar();
    hide ParseU32, FieldSet, MonthSpec, DowSet;
    OneNumber("0", 0, 0, 59, "minute");
    OneNumber("0", 0, 0, 23, "hour");
    OneNumber("29", 29, 1, 31, "day of month");
    OneNumber("2", 2, 1, 12, "month");
  }

  lemma OneNumber(s: string, n: nat, min: nat, max: nat, name: string)
    requires ParseU32(s) == Some(n) && min <= n <= max < 100
    ensures FieldSet(s, min, max, name) == Ok({n})
  {
    NumberField(s, n, "", 1, min, max, name);
    assert s + "" == s;
    hide FieldSet;
    assert Stepping(n, n, 1) == {n};
  }

  lemma Digit0()
    ensures ParseU32("0") == Some(0)
  {
    assert DigitsValue("0", 0) == DigitsValue("0"[1..], 0) && "0"[1..] == "";
  }

  lemma Digit2()
    ensures ParseU32("2") == Some(2)
  {
    assert DigitsValue("2", 0) == DigitsValue("2"[1..], 2) && "2"[1..] == "";
  }

  lemma Digits29()
    ensures ParseU32("29") == Some(29)
  {
    assert "29"[1..] == "9" && "9"[1..] == "";
    assert DigitsValue("29", 0) == DigitsValue("9", 2);
    assert DigitsValue("9", 2) == DigitsValue("", 29);
  }

  lemma PlainMonth()
    ensures MonthSpec("2") == "2"
  {
    assert Lower("2") == "2";
    assert forall i :: 0 <= i < |MONTHS| ==> |MONTHS[i]| == 3;
    hide Numbers;
    NumbersLeaves("2", MONTHS, 1);
  }

  lemma PlainDays()
    ensures DowSpec("*") == "*"
  {
    assert Lower("*") == "*";
    assert forall i :: 0 <= i < |DAYS| ==> |DAYS[i]| == 3;
    hide Numbers;
    NumbersLeaves("*", DAYS, 0);
  }

  lemma PlainStar()
    ensures DowSet("*").Ok?
  {
    PlainDays();
    hide Numbers, Lower, DowSpec, FieldSet;
    StarField("", 1, 0, 7, "day of week");
    assert "*" + "" == "*";
  }
}
