/** Civil-date arithmetic of crates/ff-terminal/build_version.rs.

    `YmdFromUnix` is the closed form the build script uses to turn a Unix time
    into a year, a month and a day. `Calendar` is the reference: it starts at
    1970-01-01 and takes one step forward or back for every day. The two agree on
    every day whose year fits the 32-bit year field, and only there. */
module CivilDate {

  datatype Date = Date(year: int, month: int, day: int)

  // ----- The reference calendar (month table of section 5.7 and leap rule of Appendix C of RFC 3339)

  predicate IsLeap(y: int) {
    y % 4 == 0 && (y % 100 != 0 || y % 400 == 0)
  }

  function DaysInMonth(y: int, m: int): (n: int)
    requires 1 <= m <= 12
    ensures 28 <= n <= 31
  {
    if m == 2 then (if IsLeap(y) then 29 else 28)
    else if m == 4 || m == 6 || m == 9 || m == 11 then 30
    else 31
  }

  predicate ValidDate(d: Date) {
    1 <= d.month <= 12 && 1 <= d.day <= DaysInMonth(d.year, d.month)
  }

  function NextDay(d: Date): (n: Date)
    requires ValidDate(d)
    ensures ValidDate(n) && Before(d, n)
  {
    if d.day < DaysInMonth(d.year, d.month) then Date(d.year, d.month, d.day + 1)
    else if d.month < 12 then Date(d.year, d.month + 1, 1)
    else Date(d.year + 1, 1, 1)
  }

  function PrevDay(d: Date): (p: Date)
    requires ValidDate(d)
    ensures ValidDate(p) && NextDay(p) == d
  {
    if d.day > 1 then Date(d.year, d.month, d.day - 1)
    else if d.month > 1 then Date(d.year, d.month - 1, DaysInMonth(d.year, d.month - 1))
    else Date(d.year - 1, 12, 31)
  }

  /** Strict chronological order of dates. */
  predicate Before(a: Date, b: Date) {
    a.year < b.year
    || (a.year == b.year && (a.month < b.month || (a.month == b.month && a.day < b.day)))
  }

  const Epoch := Date(1970, 1, 1)

  /** The date `n` days after the epoch, one day at a time. */
  function Calendar(n: int): (d: Date)
    ensures ValidDate(d)
    decreases if n < 0 then -n else n
  {
    if n == 0 then Epoch
    else if n > 0 then NextDay(Calendar(n - 1))
    else PrevDay(Calendar(n + 1))
  }

  // ----- The closed form

  /** Rust's `/` on signed integers: truncation toward zero. */
  function TruncDiv(a: int, b: int): int
    requires b > 0
  {
    if a >= 0 then a / b else -((-a) / b)
  }

  /** Rust's `as i32` on a wider signed integer: two's-complement wrap-around. */
  function WrapI32(n: int): int {
    (n + 0x8000_0000) % 0x1_0000_0000 - 0x8000_0000
  }

  /** The year counted from March, before the January/February correction, and the
      day within that year. */
  function MarchYear(z: int): (int, int) {
    var era := TruncDiv(if z >= 0 then z else z - 146_096, 146_097);
    DayOfEra(era, z - era * 146_097)
  }

  function DayOfEra(era: int, doe: int): (int, int) {
    var yoe := YearOfEra(doe);
    (yoe + era * 400, doe - (365 * yoe + TruncDiv(yoe, 4) - TruncDiv(yoe, 100)))
  }

  function YearOfEra(doe: int): int {
    TruncDiv(doe - TruncDiv(doe, 1460) + TruncDiv(doe, 36_524) - TruncDiv(doe, 146_096), 365)
  }

  /** Month and day from a day of the March-based year, and the January/February correction. */
  function FromMarch(y: int, doy: int): Date {
    var mp := TruncDiv(5 * doy + 2, 153);
    var d := doy - TruncDiv(153 * mp + 2, 5) + 1;
    var m := if mp < 10 then mp + 3 else mp - 9;
    Date(if m <= 2 then y + 1 else y, m, d)
  }

  /** The conversion before the year is cast to 32 bits. */
  function CivilFromDays(days: int): Date {
    var (y, doy) := MarchYear(days + 719_468);
    FromMarch(y, doy)
  }

  /** `ymd_from_unix`: seconds to a date, with the cast of the year to `i32`. */
  function YmdFromUnix(secs: int): Date {
    var civil := CivilFromDays(secs / 86_400);
    Date(WrapI32(civil.year), civil.month, civil.day)
  }

  // ----- Years that start in March

  /** Days from the start of March-year 0 to the start of March-year `y`. */
  function DaysBeforeYear(y: int): int {
    365 * y + y / 4 - y / 100 + y / 400
  }

  lemma YearLength(y: int)
    ensures DaysBeforeYear(y + 1) - DaysBeforeYear(y) == if IsLeap(y + 1) then 366 else 365
  {
    StepQuotient(y, 4);
    StepQuotient(y, 100);
    StepQuotient(y, 400);
  }

  lemma StepQuotient(y: int, k: int)
    requires k == 4 || k == 100 || k == 400
    ensures (y + 1) / k - y / k == if (y + 1) % k == 0 then 1 else 0
  {}

  lemma {:induction false} YearsGrow(a: int, b: int)
    requires a <= b
    ensures DaysBeforeYear(b) - DaysBeforeYear(a) >= 365 * (b - a)
    decreases b - a
  {
    if a < b {
      YearsGrow(a, b - 1);
      YearLength(b - 1);
    }
  }

  /** Within one 400-year era: `c` centuries, `q` four-year groups, `t` years and `s` days. */
  lemma YearOfEraExact(c: int, q: int, t: int, s: int)
    requires 0 <= c < 4 && 0 <= q < 25 && 0 <= t < 4
    requires 0 <= s <= (if t == 3 && (q < 24 || c == 3) then 365 else 364)
    ensures YearOfEra(36_524 * c + 1461 * q + 365 * t + s) == 100 * c + 4 * q + t
  {
    var doe := 36_524 * c + 1461 * q + 365 * t + s;
    var over := 24 * c + q + 365 * t + s;
    assert doe == 1460 * (25 * c + q) + over;
    var last := c == 3 && q == 24 && t == 3 && s == 365;
    assert doe / 36_524 == if last then 4 else c;
    assert doe / 1460 == 25 * c + q + if over >= 1460 then 1 else 0;
    assert doe / 146_096 == if last then 1 else 0;
  }

  /** Every day of an era has such a decomposition. */
  lemma SplitEra(doe: int) returns (c: int, q: int, t: int, s: int)
    requires 0 <= doe < 146_097
    ensures 0 <= c < 4 && 0 <= q < 25 && 0 <= t < 4
    ensures 0 <= s <= (if t == 3 && (q < 24 || c == 3) then 365 else 364)
    ensures doe == 36_524 * c + 1461 * q + 365 * t + s
  {
    c := if doe == 146_096 then 3 else doe / 36_524;
    var r := doe - 36_524 * c;
    q := r / 1461;
    var u := r - 1461 * q;
    t := if u == 1460 then 3 else u / 365;
    s := u - 365 * t;
  }

  /** Day `z` is day `doy` of March-year `y`. */
  ghost predicate MarchAt(z: int, y: int, doy: int) {
    DaysBeforeYear(y) + doy == z && 0 <= doy < YearSpan(y)
  }

  function YearSpan(y: int): int {
    if IsLeap(y + 1) then 366 else 365
  }

  lemma EraIsFloor(z: int)
    ensures TruncDiv(if z >= 0 then z else z - 146_096, 146_097) == z / 146_097
  {}

  /** The closed form splits an era into years and days as the calendar does. */
  lemma EraExact(era: int, c: int, q: int, t: int, s: int)
    requires 0 <= c < 4 && 0 <= q < 25 && 0 <= t < 4
    requires 0 <= s <= (if t == 3 && (q < 24 || c == 3) then 365 else 364)
    ensures var doe := 36_524 * c + 1461 * q + 365 * t + s;
            DayOfEra(era, doe) == (400 * era + 100 * c + 4 * q + t, s)
  {
    YearOfEraExact(c, q, t, s);
    var yoe := 100 * c + 4 * q + t;
    assert yoe / 4 == 25 * c + q && yoe / 100 == c;
  }

  /** The closed form finds the March-year that contains day `z` and the day within it. */
  lemma MarchYearExact(z: int) returns (y: int, doy: int)
    ensures MarchYear(z) == (y, doy) && MarchAt(z, y, doy)
  {
    var era := z / 146_097;
    var doe := z - era * 146_097;
    var c, q, t, s := SplitEra(doe);
    y, doy := 400 * era + 100 * c + 4 * q + t, s;
    assert MarchAt(z, y, doy) by {
      YearStart(era, c, q, t);
      LeapInEra(era, c, q, t);
    }
    assert DayOfEra(era, doe) == (y, doy) by {
      EraExact(era, c, q, t, s);
    }
    EraIsFloor(z);
  }

  lemma YearStart(era: int, c: int, q: int, t: int)
    requires 0 <= c < 4 && 0 <= q < 25 && 0 <= t < 4
    ensures DaysBeforeYear(400 * era + 100 * c + 4 * q + t) == 146_097 * era + 36_524 * c + 1461 * q + 365 * t
  {
    var y := 400 * era + 100 * c + 4 * q + t;
    assert y / 4 == 100 * era + 25 * c + q;
    assert y / 100 == 4 * era + c;
    assert y / 400 == era;
  }

  lemma LeapInEra(era: int, c: int, q: int, t: int)
    requires 0 <= c < 4 && 0 <= q < 25 && 0 <= t < 4
    ensures IsLeap(400 * era + 100 * c + 4 * q + t + 1) <==> (t == 3 && (q < 24 || c == 3))
  {
    YearStart(era, c, q, t);
    YearLength(400 * era + 100 * c + 4 * q + t);
    if t < 3 {
      YearStart(era, c, q, t + 1);
    } else if q < 24 {
      YearStart(era, c, q + 1, 0);
    } else if c < 3 {
      YearStart(era, c + 1, 0, 0);
    } else {
      YearStart(era + 1, 0, 0, 0);
    }
  }

  /** A March-year and a day within it are determined by the day number. */
  lemma MarchUnique(z: int, y: int, doy: int, y': int, doy': int)
    requires MarchAt(z, y, doy) && MarchAt(z, y', doy')
    ensures y == y' && doy == doy'
  {
    YearLength(y);
    YearLength(y');
    if y < y' { YearsGrow(y + 1, y'); }
    if y' < y { YearsGrow(y' + 1, y); }
  }

  lemma MarchYearUnique(z: int, y: int, doy: int)
    requires MarchAt(z, y, doy)
    ensures MarchYear(z) == (y, doy)
  {
    var y', doy' := MarchYearExact(z);
    MarchUnique(z, y, doy, y', doy');
  }

  lemma MarchStep(z: int, y: int, doy: int)
    requires MarchAt(z, y, doy)
    ensures if doy + 1 < YearSpan(y) then MarchAt(z + 1, y, doy + 1) else MarchAt(z + 1, y + 1, 0)
  {
    YearLength(y);
  }

  /** Day by day, the month formula walks through the months of a year that starts in March. */
  lemma FromMarchStep(y: int, doy: int)
    requires 0 <= doy < YearSpan(y)
    ensures ValidDate(FromMarch(y, doy))
    ensures NextDay(FromMarch(y, doy))
         == if doy + 1 < YearSpan(y) then FromMarch(y, doy + 1) else FromMarch(y + 1, 0)
  {
    var mp := (5 * doy + 2) / 153;
    var mp' := (5 * (doy + 1) + 2) / 153;
    assert 0 <= mp <= 11 && mp <= mp' <= mp + 1;
  }

  lemma CivilAt(days: int) returns (y: int, doy: int)
    ensures CivilFromDays(days) == FromMarch(y, doy) && MarchAt(days + 719_468, y, doy)
  {
    y, doy := MarchYearExact(days + 719_468);
  }

  /** One more day in the closed form is the next day of the calendar. */
  lemma CivilStep(days: int)
    ensures ValidDate(CivilFromDays(days))
    ensures CivilFromDays(days + 1) == NextDay(CivilFromDays(days))
  {
    var y, doy := CivilAt(days);
    FromMarchStep(y, doy);
    MarchStep(days + 719_468, y, doy);
    var y', doy' := CivilAt(days + 1);
    if doy + 1 < YearSpan(y) {
      MarchUnique(days + 719_469, y, doy + 1, y', doy');
    } else {
      MarchUnique(days + 719_469, y + 1, 0, y', doy');
    }
  }

  lemma NextDayInjective(a: Date, b: Date)
    requires ValidDate(a) && ValidDate(b) && NextDay(a) == NextDay(b)
    ensures a == b
  {}

  /** `f` moves one calendar day forward from `k` to `k + 1`. */
  ghost predicate StepsAt(f: int -> Date, k: int) {
    ValidDate(f(k)) && f(k + 1) == NextDay(f(k))
  }

  /** A function that starts at the epoch and always moves one day forward is the calendar. */
  lemma {:induction false} StepsDetermine(f: int -> Date, n: int)
    requires f(0) == Epoch && forall k {:trigger StepsAt(f, k)} :: StepsAt(f, k)
    ensures f(n) == Calendar(n)
    decreases if n < 0 then -n else n
  {
    if n > 0 {
      StepsDetermine(f, n - 1);
      assert StepsAt(f, n - 1);
    } else if n < 0 {
      StepsDetermine(f, n + 1);
      assert StepsAt(f, n);
      NextDayInjective(f(n), Calendar(n));
    }
  }

  function Civil(): int -> Date {
    n => CivilFromDays(n)
  }

  lemma CivilStepsAt(k: int)
    ensures StepsAt(Civil(), k)
  {
    CivilStep(k);
  }

  lemma CivilAtEpoch()
    ensures CivilFromDays(0) == Epoch
  {
    var y, doy := CivilAt(0);
    MarchUnique(719_468, y, doy, 1969, 306);
  }

  /** Main result: the closed form is the day-by-day calendar, for every day number. */
  lemma CivilIsCalendar(days: int)
    ensures CivilFromDays(days) == Calendar(days)
  {
    CivilAtEpoch();
    forall k ensures StepsAt(Civil(), k) {
      CivilStepsAt(k);
    }
    StepsDetermine(Civil(), days);
  }

  // ----- Consequences

  lemma {:induction false} CalendarIncreases(a: int, b: int)
    requires a < b
    ensures Before(Calendar(a), Calendar(b))
    decreases b - a
  {
    if b - a > 1 {
      CalendarIncreases(a, b - 1);
    }
    if b <= 0 {
      assert NextDay(Calendar(b - 1)) == Calendar(b);
    }
  }

  /** Counting days: whole years, then whole months, then days. */
  function DayNumber(d: Date): int
    requires ValidDate(d)
  {
    DaysToYear(d.year) + DaysToMonth(d.year, d.month) + d.day - 1
  }

  function DaysToYear(y: int): int
    decreases if y < 1970 then 1970 - y else y - 1970
  {
    if y == 1970 then 0
    else if y > 1970 then DaysToYear(y - 1) + DaysToMonth(y - 1, 12) + 31
    else DaysToYear(y + 1) - DaysToMonth(y, 12) - 31
  }

  function DaysToMonth(y: int, m: int): int
    requires 1 <= m <= 12
  {
    if m == 1 then 0 else DaysToMonth(y, m - 1) + DaysInMonth(y, m - 1)
  }

  lemma CountStep(d: Date)
    requires ValidDate(d)
    ensures DayNumber(NextDay(d)) == DayNumber(d) + 1
  {
    if d.month == 12 && d.day == 31 {
      assert DaysToYear(d.year + 1) == DaysToYear(d.year) + DaysToMonth(d.year, 12) + 31;
    }
  }

  lemma {:induction false} CountCalendar(n: int)
    ensures DayNumber(Calendar(n)) == n
    decreases if n < 0 then -n else n
  {
    if n > 0 {
      CountCalendar(n - 1);
      CountStep(Calendar(n - 1));
    } else if n < 0 {
      CountCalendar(n + 1);
      CountStep(Calendar(n));
    }
  }

  /** The calendar never skips a date: walking to any valid date takes the counted number of days. */
  lemma {:induction false} CalendarReaches(d: Date, n: int)
    requires ValidDate(d) && n == DayNumber(d)
    ensures Calendar(n) == d
  {
    var e := Calendar(n);
    CountCalendar(n);
    if Before(d, e) {
      CountMonotone(d, e);
    } else if Before(e, d) {
      CountMonotone(e, d);
    }
  }

  lemma CountMonotone(a: Date, b: Date)
    requires ValidDate(a) && ValidDate(b) && Before(a, b)
    ensures DayNumber(a) < DayNumber(b)
  {
    if a.year == b.year {
      MonthsGrow(a.year, a.month, b.month);
    } else {
      MonthsGrow(a.year, a.month, 12);
      YearsCount(a.year + 1, b.year);
      MonthsGrow(b.year, 1, b.month);
      assert DaysToYear(a.year + 1) == DaysToYear(a.year) + DaysToMonth(a.year, 12) + 31;
    }
  }

  lemma {:induction false} MonthsGrow(y: int, a: int, b: int)
    requires 1 <= a <= b <= 12
    ensures DaysToMonth(y, a) + (if a < b then DaysInMonth(y, a) else 0) <= DaysToMonth(y, b)
    decreases b - a
  {
    if a < b { MonthsGrow(y, a, b - 1); }
  }

  lemma {:induction false} YearsCount(a: int, b: int)
    requires a <= b
    ensures DaysToYear(a) <= DaysToYear(b)
    decreases b - a
  {
    if a < b {
      YearsCount(a, b - 1);
      MonthsGrow(b - 1, 1, 12);
      assert DaysToYear(b) == DaysToYear(b - 1) + DaysToMonth(b - 1, 12) + 31;
    }
  }

  /** Counting days and the conversion undo each other, in both directions. */
  lemma CivilInverse(days: int, d: Date)
    requires ValidDate(d)
    ensures CivilFromDays(DayNumber(d)) == d
    ensures ValidDate(CivilFromDays(days)) && DayNumber(CivilFromDays(days)) == days
  {
    CivilIsCalendar(days);
    CountCalendar(days);
    CivilIsCalendar(DayNumber(d));
    CalendarReaches(d, DayNumber(d));
  }

  // ----- The 32-bit year

  /** The days whose year fits 32 bits. */
  const FIRST_I32_DAY := -784_353_015_833
  const LAST_I32_DAY := 784_351_576_776

  lemma FromMarchYear(y: int, doy: int)
    requires 0 <= doy <= 365
    ensures FromMarch(y, doy).year == if doy < 306 then y else y + 1
  {
    var mp := (5 * doy + 2) / 153;
    assert 0 <= mp <= 11 && (mp < 10 <==> doy < 306);
  }

  lemma YearOfCivil(days: int)
    ensures var y := CivilFromDays(days).year;
            DaysBeforeYear(y - 1) + 306 <= days + 719_468 < DaysBeforeYear(y) + 306
  {
    var y, doy := CivilAt(days);
    FromMarchYear(y, doy);
    YearLength(y - 1);
    YearLength(y);
  }

  lemma YearFitsI32(days: int)
    ensures -0x8000_0000 <= CivilFromDays(days).year < 0x8000_0000 <==> FIRST_I32_DAY <= days <= LAST_I32_DAY
  {
    var y := CivilFromDays(days).year;
    YearOfCivil(days);
    assert FIRST_I32_DAY + 719_468 == DaysBeforeYear(-0x8000_0000 - 1) + 306;
    assert LAST_I32_DAY + 719_468 + 1 == DaysBeforeYear(0x7fff_ffff) + 306;
    if y < -0x8000_0000 { YearsGrow(y, -0x8000_0000 - 1); } else { YearsGrow(-0x8000_0000 - 1, y - 1); }
    if y >= 0x8000_0000 { YearsGrow(0x7fff_ffff, y - 1); } else { YearsGrow(y, 0x7fff_ffff); }
  }

  /** Main result for `ymd_from_unix`: it names the calendar date of the second's day
      exactly when that day's year fits the 32-bit year field. */
  lemma YmdIsCalendar(secs: int)
    ensures YmdFromUnix(secs) == Calendar(secs / 86_400)
       <==> FIRST_I32_DAY <= secs / 86_400 <= LAST_I32_DAY
  {
    var days := secs / 86_400;
    CivilIsCalendar(days);
    YearFitsI32(days);
    WrapExact(CivilFromDays(days).year);
  }

  lemma WrapExact(n: int)
    ensures WrapI32(n) == n <==> -0x8000_0000 <= n < 0x8000_0000
  {}

  /** Constant within a day and strictly increasing across days. */
  lemma YmdMonotone(s: int, t: int)
    requires FIRST_I32_DAY <= s / 86_400 <= t / 86_400 <= LAST_I32_DAY
    ensures s / 86_400 == t / 86_400 ==> YmdFromUnix(s) == YmdFromUnix(t)
    ensures s / 86_400 < t / 86_400 ==> Before(YmdFromUnix(s), YmdFromUnix(t))
  {
    YmdIsCalendar(s);
    YmdIsCalendar(t);
    if s / 86_400 < t / 86_400 { CalendarIncreases(s / 86_400, t / 86_400); }
  }

  /** Outside that range the wrapped year is wrong, by a whole number of 2^32-year turns:
      the first second of the year 2147483648 is reported as the year -2147483648. */
  lemma YearWraps()
    ensures YmdFromUnix((LAST_I32_DAY + 1) * 86_400) == Date(-0x8000_0000, 1, 1)
    ensures Calendar(LAST_I32_DAY + 1) == Date(0x8000_0000, 1, 1)
  {
    CivilIsCalendar(LAST_I32_DAY + 1);
    MarchYearUnique(LAST_I32_DAY + 1 + 719_468, 0x7fff_ffff, 306);
  }
}
