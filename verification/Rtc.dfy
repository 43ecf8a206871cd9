/** The real time clock in 24-hour mode: the carry from digit to digit, against the calendar it stands for. */
module Rtc {
  import opened Options

  type Byte = b: int | 0 <= b < 256

  /** Counting wraps around. */
  function Inc(b: Byte): Byte { if b == 255 then 0 else b + 1 }

  /** Two digit registers. */
  datatype Two = Two(ten: Byte, one: Byte) {
    function Plain(): nat { ten * 10 + one }

    /** As a byte. */
    function Value(): Byte { if Plain() < 256 then Plain() else Plain() % 256 }

    predicate Digits() { ten <= 9 && one <= 9 }
  }

  function Shown(b: Byte): Two { Two(b / 10, b % 10) }

  datatype Time = Time(h: Two, mi: Two, s: Two)

  datatype Date = Date(y: Two, mo: Two, d: Two)

  /** The digit registers and the weekday. */
  datatype Regs = Regs(date: Date, time: Time, w: Byte) {
    function Second(): nat { time.s.Plain() }

    function Minute(): nat { time.mi.Plain() }

    function Hour(): nat { time.h.Plain() }

    function Day(): Byte { date.d.Value() }

    function Month(): Byte { date.mo.Value() }

    function Year(): Byte { date.y.Value() }
  }

  // ----- what a tick does to the registers -----

  /** Days of a month; 0 for a number that is no month. */
  function MonthDays(month: nat, year: nat): nat {
    if month in {1, 3, 5, 7, 8, 10, 12} then 31
    else if month == 2 then if year % 4 == 0 then 29 else 28
    else if month in {4, 6, 9, 11} then 30
    else 0
  }

  function NextYear(t: Date): Date {
    var y := Inc(t.y.Value());
    t.(y := Shown(if y > 99 then 0 else y))
  }

  function NextMonth(t: Date): Date {
    var m := Inc(t.mo.Value());
    if m > 12 then NextYear(t.(mo := Shown(1))) else t.(mo := Shown(m))
  }

  /** A number that is no month keeps the day and counts as the end of a month. */
  function NextDate(t: Date): Date {
    var days, d := MonthDays(t.mo.Value(), t.y.Value()), Inc(t.d.Value());
    if days == 0 then NextMonth(t.(d := Shown(t.d.Value())))
    else if d > days then NextMonth(t.(d := Shown(1)))
    else t.(d := Shown(d))
  }

  function NextDay(r: Regs): Regs { r.(date := NextDate(r.date), w := (r.w + 1) % 7) }

  /** The bit for the afternoon, one of those of the tens of the hour, is cleared. */
  function Morning(ten: Byte): Byte { if ten / 4 % 2 == 1 then ten - 4 else ten }

  /** The digits after the next tick, if there is no carry past the limit of the tens. */
  function Count(t: Two, tens: Byte): Option<Two> {
    if Inc(t.one) <= 9 then Some(t.(one := Inc(t.one)))
    else if Inc(t.ten) <= tens then Some(Two(Inc(t.ten), 0))
    else None
  }

  /** The next hour, if it is not midnight. */
  function NextHour(t: Two): Option<Two> {
    var ten, one := Morning(t.ten), Inc(t.one);
    if ten < 2 then Some(if one > 9 then Two(ten + 1, 0) else Two(ten, one))
    else if one > 3 then None
    else Some(Two(ten, one))
  }

  function Zero(): Two { Two(0, 0) }

  function Tick(r: Regs): Regs {
    var Time(h, mi, s) := r.time;
    var second, minute, hour := Count(s, 5), Count(mi, 5), NextHour(h);
    if second.Some? then r.(time := Time(h, mi, second.value))
    else if minute.Some? then r.(time := Time(h, minute.value, Zero()))
    else if hour.Some? then r.(time := Time(hour.value, Zero(), Zero()))
    else NextDay(r.(time := Time(Zero(), Zero(), Zero())))
  }

  function Ticks(r: Regs, n: nat): Regs
    decreases n
  {
    if n == 0 then r else Tick(Ticks(r, n - 1))
  }

  // ----- the calendar -----

  predicate Valid(r: Regs) { Digits(r) && 1 <= r.Month() <= 12 && 1 <= r.Day() <= MonthDays(r.Month(), r.Year()) }

  const DAY: int := 86400

  /** A hundred years, every fourth of them a leap year. */
  const CENTURY_DAYS: int := 36525

  const CENTURY: int := 36525 * 86400

  /** Days of a year before a month. */
  function DaysBefore(month: nat, year: nat): nat
    requires 1 <= month <= 13
    decreases month
  {
    if month == 1 then 0 else DaysBefore(month - 1, year) + MonthDays(month - 1, year)
  }

  function DaysBeforeYear(year: nat): nat
    decreases year
  {
    if year == 0 then 0 else DaysBeforeYear(year - 1) + YearDays(year - 1)
  }

  function YearDays(year: nat): nat { if year % 4 == 0 then 366 else 365 }

  /** Days since the first of January of year 0. */
  function DayNumber(r: Regs): int
    requires Valid(r)
  {
    DaysBeforeYear(r.Year()) + DaysBefore(r.Month(), r.Year()) + r.Day() - 1
  }

  function SecondOfDay(r: Regs): int { r.Hour() * 3600 + r.Minute() * 60 + r.Second() }

  /** Seconds since the start of year 0. */
  function Instant(r: Regs): int
    requires Valid(r)
  {
    DayNumber(r) * DAY + SecondOfDay(r)
  }

  lemma {:induction false} YearLength(year: nat)
    ensures DaysBefore(13, year) == YearDays(year)
  {
    assert DaysBefore(4, year) == DaysBefore(3, year) + 31;
    assert DaysBefore(7, year) == DaysBefore(6, year) + 30 == DaysBefore(5, year) + 61 == DaysBefore(4, year) + 91;
    assert DaysBefore(10, year) == DaysBefore(9, year) + 30 == DaysBefore(8, year) + 61 == DaysBefore(7, year) + 92;
    assert DaysBefore(13, year) == DaysBefore(12, year) + 31 == DaysBefore(11, year) + 61 == DaysBefore(10, year) + 92;
  }

  /** Every fourth year is longer. */
  lemma {:induction false} YearsSoFar(year: nat)
    ensures DaysBeforeYear(year) == 365 * year + (year + 3) / 4
    decreases year
  {
    if year > 0 {
      YearsSoFar(year - 1);
    }
  }

  lemma {:induction false} MonthsIncrease(m: nat, n: nat, year: nat)
    requires 1 <= m < n <= 13
    ensures DaysBefore(m, year) + MonthDays(m, year) <= DaysBefore(n, year)
    decreases n
  {
    if m < n - 1 {
      MonthsIncrease(m, n - 1, year);
    }
  }

  lemma InYear(r: Regs)
    requires Valid(r)
    ensures 0 <= DaysBefore(r.Month(), r.Year()) + r.Day() - 1 < YearDays(r.Year())
  {
    MonthsIncrease(r.Month(), 13, r.Year());
    YearLength(r.Year());
  }

  lemma InCentury(r: Regs)
    requires Valid(r)
    ensures 0 <= DayNumber(r) < CENTURY_DAYS && 0 <= SecondOfDay(r) < DAY && 0 <= Instant(r) < CENTURY && r.w <= 6
  {
    hide DayNumber, SecondOfDay;
    DayInCentury(r);
    SecondInDay(r);
  }

  lemma DayInCentury(r: Regs)
    requires Valid(r)
    ensures 0 <= DayNumber(r) < CENTURY_DAYS
  {
    hide DaysBefore, DaysBeforeYear, YearDays, MonthDays;
    InYear(r);
    YearFits(r.Year());
  }

  lemma {:induction false} YearFits(y: nat)
    requires y <= 99
    ensures DaysBeforeYear(y) + YearDays(y) <= CENTURY_DAYS
  {
    hide YearDays;
    assert DaysBeforeYear(y + 1) == DaysBeforeYear(y) + YearDays(y);
    YearsSoFar(y + 1);
  }

  lemma SecondInDay(r: Regs)
    requires Digits(r)
    ensures 0 <= SecondOfDay(r) < DAY
  {
  }

  // ----- a tick is a second -----

  /** The next day by its numbers. */
  lemma NextDayIs(r: Regs)
    requires Valid(r)
    ensures var t, m, y := NextDay(r), r.Month(), r.Year();
            && (r.Day() < MonthDays(m, y) ==> t.Day() == r.Day() + 1 && t.Month() == m && t.Year() == y)
            && (r.Day() == MonthDays(m, y) && m < 12 ==> t.Day() == 1 && t.Month() == m + 1 && t.Year() == y)
            && (r.Day() == MonthDays(m, y) && m == 12 ==>
                  t.Day() == 1 && t.Month() == 1 && t.Year() == if y < 99 then y + 1 else 0)
            && Digits(t) && t.w == (r.w + 1) % 7 && SecondOfDay(t) == SecondOfDay(r)
  {
  }

  predicate Digits(r: Regs) {
    && r.time.s.Digits() && r.time.s.ten <= 5 && r.time.mi.Digits() && r.time.mi.ten <= 5
    && r.time.h.Digits() && r.Hour() <= 23
    && r.date.d.Digits() && r.date.mo.Digits() && r.date.y.Digits() && r.w <= 6
  }

  /** The number of a date's day. */
  function DateNumber(y: nat, m: nat, d: nat): int
    requires 1 <= m <= 12
  {
    DaysBeforeYear(y) + DaysBefore(m, y) + d - 1
  }

  /** The day after the last of a month. */
  lemma AfterMonth(y: nat, m: nat)
    requires 1 <= m <= 12 && y <= 99
    ensures m < 12 ==> DateNumber(y, m + 1, 1) == DateNumber(y, m, MonthDays(m, y)) + 1
    ensures m == 12 ==> DateNumber(y + 1, 1, 1) == DateNumber(y, 12, 31) + 1
    ensures y == 99 ==> DateNumber(y, 12, 31) + 1 == CENTURY_DAYS
  {
    if m < 12 {
      assert DaysBefore(m + 1, y) == DaysBefore(m, y) + MonthDays(m, y);
    }
    YearLength(y);
    assert DaysBefore(13, y) == DaysBefore(12, y) + 31;
    assert DaysBeforeYear(y + 1) == DaysBeforeYear(y) + YearDays(y);
    YearsSoFar(y + 1);
  }

  lemma DayAfter(r: Regs)
    requires Valid(r)
    ensures var t := NextDay(r);
            && Valid(t) && t.w == (r.w + 1) % 7
            && DayNumber(t) == (if DayNumber(r) + 1 == CENTURY_DAYS then 0 else DayNumber(r) + 1)
            && SecondOfDay(t) == SecondOfDay(r)
  {
    hide NextDay, SecondOfDay, Two.Value, DaysBefore, DaysBeforeYear, Digits;
    var t := NextDay(r);
    var m, y := r.Month(), r.Year();
    NextDayIs(r);
    InCentury(r);
    TwoDigits(r);
    AfterMonth(y, m);
    FirstDay();
    assert DayNumber(r) == DateNumber(y, m, r.Day());
    assert Valid(t) && DayNumber(t) == DateNumber(t.Year(), t.Month(), t.Day());
    InCentury(t);
  }

  lemma TwoDigits(r: Regs)
    requires Digits(r)
    ensures r.Year() <= 99
  {
  }

  lemma FirstDay()
    ensures DateNumber(0, 1, 1) == 0
  {
  }

  function Midnight(r: Regs): Regs { r.(time := Time(Zero(), Zero(), Zero())) }

  predicate SameDate(r: Regs, t: Regs) { r.date == t.date && r.w == t.w }

  lemma TickTime(r: Regs)
    requires Digits(r)
    ensures var last := r.Hour() == 23 && r.Minute() == 59 && r.Second() == 59;
            var t := Tick(r);
            && (last ==> t == NextDay(Midnight(r)))
            && (!last ==> Digits(t) && SameDate(r, t) && SecondOfDay(t) == SecondOfDay(r) + 1)
  {
    hide NextDay;
  }

  lemma LastSecond(r: Regs)
    requires Digits(r)
    ensures SecondOfDay(r) == DAY - 1 <==> r.Hour() == 23 && r.Minute() == 59 && r.Second() == 59
  {
    assert r.Minute() <= 59 && r.Second() <= 59;
  }

  lemma SameDateSameDay(r: Regs, t: Regs)
    requires Valid(r) && Digits(t) && SameDate(r, t)
    ensures Valid(t) && DayNumber(t) == DayNumber(r)
  {
    assert r.Year() == t.Year() && r.Month() == t.Month() && r.Day() == t.Day();
  }

  /** Carrying inside the day: one second more, or the next day's first. */
  lemma TickInDay(r: Regs)
    requires Valid(r)
    ensures var last, zero, t := SecondOfDay(r) == DAY - 1, Midnight(r), Tick(r);
            && (last ==> t == NextDay(zero) && Valid(zero) && DayNumber(zero) == DayNumber(r) && SecondOfDay(zero) == 0
                         && zero.w == r.w)
            && (!last ==> Valid(t) && SecondOfDay(t) == SecondOfDay(r) + 1 && DayNumber(t) == DayNumber(r) && t.w == r.w)
  {
    hide Tick, NextDay, DayNumber;
    TickTime(r);
    LastSecond(r);
    if SecondOfDay(r) == DAY - 1 {
      SameDateSameDay(r, Midnight(r));
    } else {
      SameDateSameDay(r, Tick(r));
    }
  }

  lemma TickIsASecond(r: Regs)
    requires Valid(r)
    ensures var t := Tick(r);
            && Valid(t)
            && Instant(t) == (if Instant(r) + 1 == CENTURY then 0 else Instant(r) + 1)
            && t.w == if SecondOfDay(r) == DAY - 1 then (r.w + 1) % 7 else r.w
  {
    TickInDay(r);
    InCentury(r);
    if SecondOfDay(r) == DAY - 1 {
      DayAfter(Midnight(r));
    }
  }

  /** Midnights in the n seconds after an instant. */
  function Midnights(r: Regs, n: nat): nat { (SecondOfDay(r) + n) / DAY }

  /** n ticks from any valid registers: the registers stay valid, the instant is n seconds later, a hundred years
    * being one turn, and the weekday has moved with every midnight. */
  lemma {:induction false} TicksAreSeconds(r: Regs, n: nat)
    requires Valid(r)
    ensures var t := Ticks(r, n);
            && Valid(t)
            && Instant(t) == (Instant(r) + n) % CENTURY
            && t.w == (r.w + Midnights(r, n)) % 7
  {
    hide Ticks, Instant, Valid, Midnights;
    TicksRun(r, n);
  }

  /** Remainder and quotient, to be hidden from arithmetic. */
  function Rem(x: int, m: int): int
    requires m > 0
  {
    x % m
  }

  lemma {:induction false} TicksRun(r: Regs, n: nat)
    requires Valid(r)
    ensures Valid(Ticks(r, n))
    ensures Instant(Ticks(r, n)) == Rem(Instant(r) + n, CENTURY)
    ensures Ticks(r, n).w == Rem(r.w + Midnights(r, n), 7)
    decreases n
  {
    hide Tick, DayNumber, SecondOfDay, Valid, Instant, Midnights, Rem;
    InCentury(r);
    if n == 0 {
      Small(Instant(r), CENTURY);
      Small(r.w, 7);
      NoMidnight(r);
    } else {
      TicksRun(r, n - 1);
      var t := Ticks(r, n - 1);
      TickIsASecond(t);
      InCentury(t);
      RemStep(Instant(r) + n - 1, CENTURY);
      SecondAt(r, t, n - 1);
      MidnightStep(r, n - 1);
      RemStep(r.w + Midnights(r, n - 1), 7);
    }
  }

  lemma NoMidnight(r: Regs)
    requires SecondOfDay(r) < DAY
    ensures Midnights(r, 0) == 0
  {
    hide SecondOfDay;
  }

  lemma MidnightStep(r: Regs, n: nat)
    requires SecondOfDay(r) >= 0
    ensures Midnights(r, n) >= 0
    ensures Midnights(r, n + 1) ==
            if Rem(SecondOfDay(r) + n, DAY) == DAY - 1 then Midnights(r, n) + 1 else Midnights(r, n)
  {
    hide SecondOfDay;
    DivStep(SecondOfDay(r) + n, DAY);
  }

  lemma Small(x: int, m: int)
    requires 0 <= x < m
    ensures Rem(x, m) == x && x / m == 0
  {
  }

  lemma RemStep(x: int, m: int)
    requires x >= 0 && m > 1
    ensures Rem(x + 1, m) == if Rem(x, m) == m - 1 then 0 else Rem(x, m) + 1
  {
    DivMod(x, m);
    if x % m == m - 1 {
      Unique(x + 1, m, x / m + 1, 0);
    } else {
      Unique(x + 1, m, x / m, x % m + 1);
    }
  }

  lemma DivStep(x: int, m: int)
    requires x >= 0 && m > 1
    ensures (x + 1) / m == if Rem(x, m) == m - 1 then x / m + 1 else x / m
  {
    DivMod(x, m);
    if x % m == m - 1 {
      Unique(x + 1, m, x / m + 1, 0);
    } else {
      Unique(x + 1, m, x / m, x % m + 1);
    }
  }

  lemma DivMod(x: int, m: int)
    requires m > 0
    ensures x == m * (x / m) + x % m && 0 <= x % m < m
  {
  }

  /** Quotient and remainder are the only ones. */
  lemma Unique(x: int, m: int, q: int, r: int)
    requires m > 0 && x == m * q + r && 0 <= r < m
    ensures x / m == q && Rem(x, m) == r
  {
    DivMod(x, m);
    var d := x / m - q;
    assert m * d == r - x % m;
    Multiple(m, d);
  }

  lemma Multiple(m: int, d: int)
    requires m > 0
    ensures (d >= 1 ==> m * d >= m) && (d <= -1 ==> m * d <= -m)
  {
    if d >= 1 {
      assert m * (d - 1) >= 0;
    } else if d <= -1 {
      assert m * (d + 1) <= 0;
    }
  }

  /** The second of the day follows from the instant. */
  lemma SecondAt(r: Regs, t: Regs, n: nat)
    requires Valid(r) && Valid(t) && Instant(t) == Rem(Instant(r) + n, CENTURY)
    ensures SecondOfDay(t) == Rem(SecondOfDay(r) + n, DAY)
  {
    hide DayNumber, SecondOfDay, Valid, Rem;
    InCentury(t);
    RemOfRem(DayNumber(r), SecondOfDay(r) + n, DayNumber(t), SecondOfDay(t));
  }

  lemma RemOfRem(d: int, s: int, d': int, s': int)
    requires 0 <= s' < DAY && d' * DAY + s' == Rem(d * DAY + s, CENTURY)
    ensures s' == Rem(s, DAY)
  {
    hide Rem;
    var q := Turns(d * DAY + s, CENTURY);
    Unique(s, DAY, d' - d + CENTURY_DAYS * q, s');
  }

  lemma Turns(x: int, m: int) returns (q: int)
    requires m > 0
    ensures x == m * q + Rem(x, m)
  {
    q := x / m;
  }

  // ----- the registers are determined by the instant -----

  lemma {:induction false} YearsIncrease(y: nat, z: nat)
    requires y < z
    ensures DaysBeforeYear(y) + YearDays(y) <= DaysBeforeYear(z)
    decreases z
  {
    if y < z - 1 {
      YearsIncrease(y, z - 1);
    }
  }

  lemma SameDay(r: Regs, t: Regs)
    requires Valid(r) && Valid(t) && DayNumber(r) == DayNumber(t)
    ensures r.Year() == t.Year() && r.Month() == t.Month() && r.Day() == t.Day()
  {
    InYear(r);
    InYear(t);
    if r.Year() < t.Year() { YearsIncrease(r.Year(), t.Year()); }
    if t.Year() < r.Year() { YearsIncrease(t.Year(), r.Year()); }
    if r.Month() < t.Month() { MonthsIncrease(r.Month(), t.Month(), r.Year()); }
    if t.Month() < r.Month() { MonthsIncrease(t.Month(), r.Month(), r.Year()); }
  }

  /** Two valid register states that stand for the same instant differ in the weekday at most. */
  lemma InstantIsFaithful(r: Regs, t: Regs)
    requires Valid(r) && Valid(t) && Instant(r) == Instant(t)
    ensures t == r.(w := t.w)
  {
    hide DayNumber, SecondOfDay;
    InCentury(r);
    InCentury(t);
    Unique(Instant(r), DAY, DayNumber(r), SecondOfDay(r));
    Unique(Instant(t), DAY, DayNumber(t), SecondOfDay(t));
    SameDay(r, t);
    SameTime(r, t);
    SameNumbers(r, t);
  }

  lemma SameTime(r: Regs, t: Regs)
    requires Digits(r) && Digits(t) && SecondOfDay(r) == SecondOfDay(t)
    ensures r.time == t.time
  {
    Unique(SecondOfDay(r), 60, r.Hour() * 60 + r.Minute(), r.Second());
    Unique(SecondOfDay(t), 60, t.Hour() * 60 + t.Minute(), t.Second());
    Unique(r.Hour() * 60 + r.Minute(), 60, r.Hour(), r.Minute());
    Unique(t.Hour() * 60 + t.Minute(), 60, t.Hour(), t.Minute());
    SameDigits(r, t);
  }

  lemma SameDigits(r: Regs, t: Regs)
    requires Digits(r) && Digits(t) && r.Hour() == t.Hour() && r.Minute() == t.Minute() && r.Second() == t.Second()
    ensures r.time == t.time
  {
  }

  lemma SameNumbers(r: Regs, t: Regs)
    requires Digits(r) && Digits(t) && r.Year() == t.Year() && r.Month() == t.Month() && r.Day() == t.Day()
    ensures SameDate(r, t.(w := r.w))
  {
    SameTwo(r.date.y, t.date.y);
    SameTwo(r.date.mo, t.date.mo);
    SameTwo(r.date.d, t.date.d);
  }

  lemma SameTwo(a: Two, b: Two)
    requires a.Digits() && b.Digits() && a.Plain() == b.Plain()
    ensures a == b
  {
  }

  /** After a hundred years every register is back, but for the weekday, which is one day behind. */
  lemma {:induction false} CenturyLater(r: Regs)
    requires Valid(r)
    ensures Ticks(r, CENTURY) == r.(w := (r.w + 6) % 7)
  {
    hide Ticks, DayNumber;
    TicksAreSeconds(r, CENTURY);
    InCentury(r);
    Unique(Instant(r) + CENTURY, CENTURY, 1, Instant(r));
    Unique(SecondOfDay(r) + CENTURY, DAY, CENTURY_DAYS, SecondOfDay(r));
    assert Midnights(r, CENTURY) == 36525;
    assert (r.w + 36525) % 7 == (r.w + 6) % 7;
    InstantIsFaithful(r, Ticks(r, CENTURY));
  }

  // ----- the 30-second adjustment -----

  function WithSecond(r: Regs, s: Byte): Regs { r.(time := r.time.(s := Shown(s))) }

  /** Up to second 29 the seconds are cleared; from second 30 on they are set to 59 and a tick follows. */
  function Adjust(r: Regs): Regs {
    if r.Second() <= 29 then WithSecond(r, 0) else Tick(WithSecond(r, 59))
  }

  /** The adjustment goes to the nearest minute, half minutes up. */
  lemma AdjustRounds(r: Regs)
    requires Valid(r)
    ensures Valid(Adjust(r)) && Instant(Adjust(r)) == (Instant(r) + 30) / 60 * 60 % CENTURY
  {
    hide Adjust, Instant, Valid, Minutes;
    MinuteOf(r);
    InCentury(r);
    if r.Second() <= 29 {
      Unique(Instant(r) + 30, 60, Minutes(r), r.Second() + 30);
      AdjustDown(r);
      Small(Minutes(r) * 60, CENTURY);
    } else {
      Unique(Instant(r) + 30, 60, Minutes(r) + 1, r.Second() - 30);
      AdjustUp(r);
    }
  }

  /** Minutes since the start of year 0. */
  function Minutes(r: Regs): int
    requires Valid(r)
  {
    DayNumber(r) * 1440 + r.Hour() * 60 + r.Minute()
  }

  lemma MinuteOf(r: Regs)
    requires Valid(r)
    ensures Instant(r) == Minutes(r) * 60 + r.Second() && r.Second() <= 59
    ensures Minutes(r) * 60 <= CENTURY - 60
  {
    hide DayNumber;
    InCentury(r);
    assert r.Minute() <= 59;
  }

  lemma AdjustDown(r: Regs)
    requires Valid(r) && r.Second() <= 29
    ensures Valid(Adjust(r)) && Instant(Adjust(r)) == Minutes(r) * 60
  {
    hide Tick, DayNumber;
    SameDateSameDay(r, WithSecond(r, 0));
  }

  lemma AdjustUp(r: Regs)
    requires Valid(r) && r.Second() > 29
    ensures Valid(Adjust(r)) && Instant(Adjust(r)) == Rem((Minutes(r) + 1) * 60, CENTURY)
  {
    hide Tick, DayNumber, Valid, Instant, Minutes, Rem;
    MinuteOf(r);
    Second59(r);
    var t := WithSecond(r, 59);
    TickIsASecond(t);
    if (Minutes(r) + 1) * 60 == CENTURY {
      Unique(CENTURY, CENTURY, 1, 0);
    } else {
      InCentury(t);
      Small((Minutes(r) + 1) * 60, CENTURY);
    }
  }

  lemma Second59(r: Regs)
    requires Valid(r)
    ensures var t := WithSecond(r, 59); Valid(t) && Instant(t) == Minutes(r) * 60 + 59
  {
    hide DayNumber;
    SameDateSameDay(r, WithSecond(r, 59));
  }

  // ----- the registers, updated in place -----

  class Clock {
    var s1: Byte
    var s10: Byte
    var mi1: Byte
    var mi10: Byte
    var h1: Byte
    var h10: Byte
    var d1: Byte
    var d10: Byte
    var mo1: Byte
    var mo10: Byte
    var y1: Byte
    var y10: Byte
    var w: Byte

    function Registers(): Regs
      reads this
    {
      Regs(Date(Two(y10, y1), Two(mo10, mo1), Two(d10, d1)), Time(Two(h10, h1), Two(mi10, mi1), Two(s10, s1)), w)
    }

    /** The carry past midnight. */
    method CarryDay()
      modifies this
      ensures Registers() == NextDay(old(Registers()))
    {
      hide NextMonth, Two.Value, Inc;
      var currMonth, currDay, currYear := Two(mo10, mo1).Value(), Two(d10, d1).Value(), Two(y10, y1).Value();
      w := (w + 1) % 7;
      var carry := true;
      if currMonth in {1, 3, 5, 7, 8, 10, 12} {
        currDay := Inc(currDay);
        carry := currDay > 31;
        currDay := if carry then 1 else currDay;
      } else if currMonth == 2 {
        if currYear % 4 == 0 {
          currDay := Inc(currDay);
          carry := currDay > 29;
          currDay := if carry then 1 else currDay;
        } else {
          currDay := Inc(currDay);
          carry := currDay > 28;
          currDay := if carry then 1 else currDay;
        }
      } else if currMonth in {4, 6, 9, 11} {
        currDay := Inc(currDay);
        carry := currDay > 30;
        currDay := if carry then 1 else currDay;
      }
      d10, d1 := currDay / 10, currDay % 10;
      if carry {
        CarryMonth();
      }
    }

    /** The carry past the end of a month. */
    method CarryMonth()
      modifies this
      ensures Registers() == old(Registers()).(date := NextMonth(old(Registers()).date))
    {
      var currMonth, currYear := Inc(Two(mo10, mo1).Value()), Two(y10, y1).Value();
      var carry := currMonth > 12;
      currMonth := if carry then 1 else currMonth;
      mo10, mo1 := currMonth / 10, currMonth % 10;
      if carry {
        currYear := Inc(currYear);
        carry := currYear > 99;
        currYear := if carry then 0 else currYear;
        y10, y1 := currYear / 10, currYear % 10;
      }
    }

    /** The carry past the end of an hour. */
    method CarryHour()
      modifies this
      ensures var r := old(Registers());
              var hour := NextHour(r.time.h);
              Registers() == if hour.Some? then r.(time := r.time.(h := hour.value))
                             else NextDay(r.(time := r.time.(h := Zero())))
    {
      hide NextDay;
      h10 := Morning(h10);
      h1 := Inc(h1);
      if h10 < 2 {
        if h1 > 9 {
          h1, h10 := 0, h10 + 1;
        }
      } else if h1 > 3 {
        h1, h10 := 0, 0;
        CarryDay();
      }
    }

    /** One second: the carry goes from digit to digit as far as it must. */
    method Second()
      modifies this
      ensures Registers() == Tick(old(Registers()))
    {
      hide NextHour, NextDay;
      s1 := Inc(s1);
      var carry := s1 > 9;
      if carry {
        s1, s10 := 0, Inc(s10);
        carry := s10 > 5;
        if carry {
          s10, mi1 := 0, Inc(mi1);
          carry := mi1 > 9;
          if carry {
            mi1, mi10 := 0, Inc(mi10);
            carry := mi10 > 5;
            if carry {
              mi10 := 0;
              CarryHour();
            }
          }
        }
      }
    }

    /** The clock running for n seconds. */
    method Run(n: nat)
      requires Valid(Registers())
      modifies this
      ensures Valid(Registers())
      ensures Instant(Registers()) == (Instant(old(Registers())) + n) % CENTURY
      ensures w == (old(w) + Midnights(old(Registers()), n)) % 7
    {
      hide Tick, Instant, Valid, Midnights;
      ghost var r := Registers();
      var i := 0;
      while i < n
        invariant 0 <= i <= n && Registers() == Ticks(r, i)
      {
        Second();
        i := i + 1;
      }
      TicksAreSeconds(r, n);
    }
  }
}
