/** The calendar arithmetic of base/TimeTool.cpp: `gmtime64` and `mktime64`.

    The reference is the proleptic Gregorian calendar counted year by year and
    month by month (`YearStart`, `MonthStart`); the code's closed formulas and its
    guess-and-correct loop are proved against that count.
 */
module TimeTool {
  import opened Common

  const SECS_PER_HOUR := 3600
  const SECS_PER_DAY := 86400
  const EPOCH_YEAR := 1970

  // ---------------------------------------------------------------- C++ operators

  /** Division and remainder that truncate toward zero. */
  function Quot(a: int, b: int): int
    requires b > 0
  {
    if a >= 0 then a / b else -((-a) / b)
  }

  function Rem(a: int, b: int): int
    requires b > 0
  {
    a - b * Quot(a, b)
  }

  function Below(a: int, b: int): int { if a < b then 1 else 0 }

  /** The macro DIV. */
  function Div(a: int, b: int): int
    requires b > 0
  {
    Quot(a, b) - Below(Rem(a, b), 0)
  }

  function Wrap32(x: int): int { x % 0x1_0000_0000 }

  /** Conversion to a 32-bit int. */
  function ToInt32(x: int): int {
    var w := Wrap32(x);
    if w < 0x8000_0000 then w else w - 0x1_0000_0000
  }

  // ---------------------------------------------------------------- the Gregorian calendar

  predicate IsLeap(y: int) { y % 4 == 0 && (y % 100 != 0 || y % 400 == 0) }

  function YearLength(y: int): int { if IsLeap(y) then 366 else 365 }

  /** Days from 1 January 1970 to 1 January of year `y`. */
  ghost function YearStart(y: int): int
    decreases if y >= EPOCH_YEAR then y - EPOCH_YEAR else EPOCH_YEAR - y
  {
    if y == EPOCH_YEAR then 0
    else if y > EPOCH_YEAR then YearStart(y - 1) + YearLength(y - 1)
    else YearStart(y + 1) - YearLength(y)
  }

  function MonthLength(leap: bool, m: nat): int
    requires m < 12
  {
    if m == 1 then (if leap then 29 else 28)
    else if m == 3 || m == 5 || m == 8 || m == 10 then 30 else 31
  }

  /** Days from 1 January to the first of month `m` (0 for January). */
  ghost function MonthStart(leap: bool, m: nat): int
    requires m <= 12
  {
    if m == 0 then 0 else MonthStart(leap, m - 1) + MonthLength(leap, m - 1)
  }

  /** The fields of `struct tm` that gmtime64 fills in. */
  datatype Tm = Tm(year: int, mon: int, mday: int, hour: int, min: int, sec: int, wday: int, yday: int)

  /** A date and time of day that exist, in the full year `y`. */
  ghost predicate Exists(y: int, mon: int, mday: int, hour: int, min: int, sec: int) {
    && 0 <= mon < 12 && 1 <= mday <= MonthLength(IsLeap(y), mon)
    && 0 <= hour < 24 && 0 <= min < 60 && 0 <= sec < 60
  }

  ghost function DayNumber(y: int, mon: int, mday: int): int
    requires 0 <= mon < 12
  {
    YearStart(y) + MonthStart(IsLeap(y), mon) + mday - 1
  }

  /** `f` is the broken-down form of the instant `t` in year `y`. */
  ghost predicate BreaksDown(t: int, y: int, f: Tm) {
    && Exists(y, f.mon, f.mday, f.hour, f.min, f.sec)
    && t == DayNumber(y, f.mon, f.mday) * SECS_PER_DAY + f.hour * SECS_PER_HOUR + f.min * 60 + f.sec
    && f.yday == MonthStart(IsLeap(y), f.mon) + f.mday - 1
    && f.wday == (4 + DayNumber(y, f.mon, f.mday)) % 7
    && f.year == y - 1900
  }

  // ---------------------------------------------------------------- closed formulas

  /** On the divisors in use, DIV is the floor. */
  lemma DivIsFloor(a: int, b: int)
    requires b == 4 || b == 100 || b == 400 || b == 365
    ensures Div(a, b) == a / b
  {
    if b == 4 {
      assert Div(a, 4) == a / 4;
    } else if b == 100 {
      assert Div(a, 100) == a / 100;
    } else if b == 400 {
      assert Div(a, 400) == a / 400;
    } else {
      assert Div(a, 365) == a / 365;
    }
  }

  ghost function Leaps(y: int): int { y / 4 - y / 100 + y / 400 }

  /** The macro LEAPS_THRU_END_OF. */
  method LeapsThruEndOf(y: int) returns (n: int)
    ensures n == Leaps(y)
  {
    DivIsFloor(y, 4);
    DivIsFloor(y, 100);
    DivIsFloor(y, 400);
    n := Div(y, 4) - Div(y, 100) + Div(y, 400);
  }

  lemma Nested(y: int)
    ensures y / 100 == y / 4 / 25 && y / 400 == y / 100 / 4
  {
  }

  lemma Divisors(y: int)
    ensures (y % 400 == 0 ==> y % 100 == 0) && (y % 100 == 0 ==> y % 4 == 0)
  {
  }

  lemma LeapStep(y: int)
    ensures Leaps(y) == Leaps(y - 1) + if IsLeap(y) then 1 else 0
  {
    assert y / 4 == (y - 1) / 4 + if y % 4 == 0 then 1 else 0;
    assert y / 100 == (y - 1) / 100 + if y % 100 == 0 then 1 else 0;
    assert y / 400 == (y - 1) / 400 + if y % 400 == 0 then 1 else 0;
    Divisors(y);
  }

  /** Going up, the count of a coarser division never gains on a finer one. */
  lemma CoarserGainsLess(a: int, b: int, d: int)
    requires a <= b && (d == 4 || d == 25)
    ensures 0 <= b / d - a / d <= b - a
  {
    if d == 4 {
      assert 0 <= b / 4 - a / 4 <= b - a;
    } else {
      assert 0 <= b / 25 - a / 25 <= b - a;
    }
  }

  lemma LeapsBetween(a: int, n: nat)
    ensures 0 <= Leaps(a + n) - Leaps(a) <= n / 4 + 1
    ensures n <= 1 ==> Leaps(a + n) - Leaps(a) <= n
  {
    Nested(a);
    Nested(a + n);
    CoarserGainsLess(a, a + n, 4);
    CoarserGainsLess(a / 4, (a + n) / 4, 25);
    CoarserGainsLess(a / 100, (a + n) / 100, 4);
  }

  lemma {:induction false} YearStartFormula(y: int)
    ensures YearStart(y) == 365 * (y - EPOCH_YEAR) + Leaps(y - 1) - Leaps(EPOCH_YEAR - 1)
    decreases if y >= EPOCH_YEAR then y - EPOCH_YEAR else EPOCH_YEAR - y
  {
    if y > EPOCH_YEAR {
      YearStartFormula(y - 1);
      LeapStep(y - 1);
    } else if y < EPOCH_YEAR {
      YearStartFormula(y + 1);
      LeapStep(y);
    }
  }

  lemma YearStartStep(y: int)
    ensures YearStart(y + 1) == YearStart(y) + YearLength(y)
  {
  }

  lemma {:induction false} YearsInOrder(y: int, z: int)
    requires y < z
    ensures YearStart(y) + YearLength(y) <= YearStart(z)
    decreases z - y
  {
    YearStartStep(y);
    if y + 1 < z { YearsInOrder(y + 1, z); }
  }

  /** A day lies in one year only. */
  lemma {:induction false} YearIsUnique(y: int, d: int, z: int, e: int)
    requires 0 <= d < YearLength(y) && 0 <= e < YearLength(z) && YearStart(y) + d == YearStart(z) + e
    ensures y == z && d == e
  {
    if y < z { YearsInOrder(y, z); }
    if z < y { YearsInOrder(z, y); }
  }

  lemma {:induction false} MonthsInOrder(leap: bool, m: nat, n: nat)
    requires m < n <= 12
    ensures MonthStart(leap, m) + MonthLength(leap, m) <= MonthStart(leap, n)
    decreases n
  {
    if m + 1 < n { MonthsInOrder(leap, m, n - 1); }
  }

  /** The two rows of `__mon_yday`. */
  const MON_YDAY: seq<seq<int>> := [
    [0, 31, 59, 90, 120, 151, 181, 212, 243, 273, 304, 334, 365],
    [0, 31, 60, 91, 121, 152, 182, 213, 244, 274, 305, 335, 366]]

  lemma {:induction false} MonthTableIsMonthStart(leap: bool, m: nat)
    requires m <= 12
    ensures MON_YDAY[if leap then 1 else 0][m] == MonthStart(leap, m)
  {
    if m > 0 { MonthTableIsMonthStart(leap, m - 1); }
  }

  // ---------------------------------------------------------------- gmtime64

  predicate InYear(y: int, days: int) { 0 <= days < YearLength(y) }

  /** Nothing is left to correct, or this far to go. */
  ghost function Distance(y: int, days: int): nat {
    if InYear(y, days) then 0 else Abs(days)
  }

  /** Going `days / 365` years on and taking off their days keeps the day and brings it nearer to its year. */
  lemma {:induction false} GuessGetsNearer(y: int, days: int)
    requires !InYear(y, days)
    ensures var yg := y + days / 365;
            var left := days - (days / 365 * 365 + Leaps(yg - 1) - Leaps(y - 1));
            && left + YearStart(yg) == days + YearStart(y)
            && Distance(yg, left) < Distance(y, days)
            && (!InYear(yg, left) ==> Abs(left) < Abs(days))
  {
    var q := days / 365;
    var yg := y + q;
    var k := Leaps(yg - 1) - Leaps(y - 1);
    YearsSpanned(y, yg);
    LeapsSpanned(y, q);
    if q == -1 { LeapStep(yg); }
    Nearer(y, yg, days, q, k);
  }

  lemma {:induction false} YearsSpanned(y: int, z: int)
    ensures YearStart(z) - YearStart(y) == 365 * (z - y) + Leaps(z - 1) - Leaps(y - 1)
  {
    YearStartFormula(y);
    YearStartFormula(z);
  }

  lemma {:induction false} LeapsSpanned(y: int, q: int)
    ensures var k := Leaps(y + q - 1) - Leaps(y - 1);
            if q >= 0 then 0 <= k <= q / 4 + 1 && (q <= 1 ==> k <= q) else 0 <= -k <= (-q) / 4 + 1 && (q == -1 ==> -k <= 1)
  {
    if q >= 0 { LeapsBetween(y - 1, q); } else { LeapsBetween(y + q - 1, -q); }
  }

  lemma {:induction false} Nearer(y: int, yg: int, days: int, q: int, k: int)
    requires !InYear(y, days) && q == days / 365
    requires if q >= 0 then 0 <= k <= q / 4 + 1 && (q <= 1 ==> k <= q) else 0 <= -k <= (-q) / 4 + 1 && (q == -1 ==> -k == YearLength(yg) - 365)
    ensures var days' := days - (q * 365 + k);
            && Distance(yg, days') < Distance(y, days)
            && (!InYear(yg, days') ==> Abs(days') < Abs(days))
  {
  }

  method GuessYear(y: int, days: int) returns (yg: int)
    ensures yg == y + days / 365
  {
    DivIsFloor(days, 365);
    yg := y + Quot(days, 365) - Below(Rem(days, 365), 0);
  }

  /** One turn of the year loop: guess a year at 365 days each, adjust for its leap days. */
  method CorrectYear(y: int, days: int) returns (yg: int, left: int)
    requires !InYear(y, days)
    ensures left + YearStart(yg) == days + YearStart(y)
    ensures InYear(yg, left) || Abs(left) < Abs(days)
    ensures Distance(yg, left) < Distance(y, days)
  {
    yg := GuessYear(y, days);
    GuessGetsNearer(y, days);
    var thruNew := LeapsThruEndOf(yg - 1);
    var thruOld := LeapsThruEndOf(y - 1);
    left := days - ((yg - y) * 365 + thruNew - thruOld);
  }

  /** The year loop: from any day count, the year and the day in it. */
  method FindYear(day: int) returns (y: int, days: int)
    ensures InYear(y, days) && days + YearStart(y) == day
  {
    y, days := EPOCH_YEAR, day;
    while days < 0 || days >= (if IsLeap(y) then 366 else 365)
      invariant days + YearStart(y) == day
      decreases Distance(y, days)
    {
      y, days := CorrectYear(y, days);
    }
  }

  /** The month loop: down from December to the month that holds the day. */
  method FindMonth(year: int, days: int) returns (m: int, mday: int)
    requires InYear(year, days)
    ensures 0 <= m < 12 && 1 <= mday <= MonthLength(IsLeap(year), m)
    ensures days == MonthStart(IsLeap(year), m) + mday - 1
  {
    var ip := MON_YDAY[if IsLeap(year) then 1 else 0];
    MonthTableIsMonthStart(IsLeap(year), 12);
    MonthTableIsMonthStart(IsLeap(year), 0);
    m := 11;
    MonthTableIsMonthStart(IsLeap(year), m);
    while days < ip[m]
      invariant 0 <= m <= 11 && ip[m] == MonthStart(IsLeap(year), m) && 0 <= days < MonthStart(IsLeap(year), m + 1)
      decreases m
    {
      m := m - 1;
      MonthTableIsMonthStart(IsLeap(year), m);
    }
    mday := days - ip[m] + 1;
  }

  /** Whole days and the seconds of the last one, also before the epoch. */
  method SplitDay(t: int) returns (days: int, rem: int)
    ensures t == days * SECS_PER_DAY + rem && 0 <= rem < SECS_PER_DAY
  {
    days, rem := Quot(t, SECS_PER_DAY), Rem(t, SECS_PER_DAY);
    while rem < 0
      invariant t == days * SECS_PER_DAY + rem
      decreases -rem
    {
      rem := rem + SECS_PER_DAY;
      days := days - 1;
    }
    while rem >= SECS_PER_DAY
      invariant t == days * SECS_PER_DAY + rem && 0 <= rem
    {
      rem := rem - SECS_PER_DAY;
      days := days + 1;
    }
  }

  method ClockOf(inDay: int) returns (hour: int, min: int, sec: int)
    requires 0 <= inDay < SECS_PER_DAY
    ensures 0 <= hour < 24 && 0 <= min < 60 && 0 <= sec < 60
    ensures inDay == hour * SECS_PER_HOUR + min * 60 + sec
  {
    hour := Quot(inDay, SECS_PER_HOUR);
    var rem := Rem(inDay, SECS_PER_HOUR);
    min, sec := Quot(rem, 60), Rem(rem, 60);
  }

  /** 1 January 1970 was a Thursday. */
  method WeekDayOf(days: int) returns (wday: int)
    ensures wday == (4 + days) % 7
  {
    wday := Rem(4 + days, 7);
    if wday < 0 {
      wday := wday + 7;
    }
  }

  /** The year an instant falls in. */
  ghost predicate FallsIn(t: int, y: int) {
    YearStart(y) * SECS_PER_DAY <= t < YearStart(y + 1) * SECS_PER_DAY
  }

  lemma FallsInOneYear(t: int, y: int, z: int)
    requires FallsIn(t, y) && FallsIn(t, z)
    ensures y == z
  {
    if y < z { YearsInOrder(y, z); }
    if z < y { YearsInOrder(z, y); }
    YearStartStep(y);
    YearStartStep(z);
  }

  predicate FitsTmYear(y: int) { -0x8000_0000 <= y - 1900 < 0x8000_0000 }

  /** Every instant falls in a year; the call fails exactly when that year does not fit a 32-bit
      `tm_year`, and otherwise the fields are the instant's. */
  method Gmtime64(t: int) returns (ok: bool, tp: Tm)
    ensures exists y :: FallsIn(t, y)
    ensures forall y :: FallsIn(t, y) ==> (ok <==> FitsTmYear(y)) && (ok ==> BreaksDown(t, y, tp))
  {
    var days, rem := SplitDay(t);
    var hour, min, sec := ClockOf(rem);
    var wday := WeekDayOf(days);
    var y, yday := FindYear(days);
    YearStartStep(y);
    assert FallsIn(t, y);
    forall z | FallsIn(t, z) ensures z == y {
      FallsInOneYear(t, y, z);
    }
    var tmYear := ToInt32(y - 1900);
    if tmYear != y - 1900 {
      return false, Tm(tmYear, 0, 0, hour, min, sec, wday, 0);
    }
    var m, mday := FindMonth(y, yday);
    return true, Tm(tmYear, m, mday, hour, min, sec, wday, yday);
  }

  // ---------------------------------------------------------------- mktime64

  predicate IsUint32(x: int) { 0 <= x < 0x1_0000_0000 }

  /** The expression of mktime64, with its unsigned 32-bit and signed 64-bit parts. */
  function Mktime64(year: int, mon: int, day: int, hour: int, min: int, sec: int): int
    requires IsUint32(year) && IsUint32(mon)
  {
    var before := ToInt32(Wrap32(mon - 2)) <= 0;
    var m := if before then Wrap32(Wrap32(mon - 2) + 12) else Wrap32(mon - 2);
    var y := if before then Wrap32(year - 1) else year;
    ((MarchDays(y, m, day) * 24 + hour) * 60 + min) * 60 + sec
  }

  /** Its day count, from the March year and month. */
  function MarchDays(y: int, m: int, day: int): int {
    Wrap32(y / 4 - y / 100 + y / 400 + Wrap32(367 * m) / 12 + day) + Wrap32(y * 365) - 719499
  }

  /** The year counted from March, in which the code works. */
  function MarchYear(year: int, mon: int): int { if mon <= 2 then year - 1 else year }

  ghost function Seconds(y: int, mon: int, mday: int, hour: int, min: int, sec: int): int
    requires 0 <= mon < 12
  {
    DayNumber(y, mon, mday) * SECS_PER_DAY + hour * SECS_PER_HOUR + min * 60 + sec
  }

  /** Whether the unsigned arithmetic of mktime64 stays exact. */
  predicate Fits(year: int, mon: int) { 0 <= MarchYear(year, mon) && 365 * MarchYear(year, mon) < 0x1_0000_0000 }

  function MarchMonth(mon: int): int { if mon <= 2 then mon + 10 else mon - 2 }

  lemma {:induction false} MarchFormula(y: int, mon: int, day: int)
    requires 1 <= mon <= 12
    ensures var z := MarchYear(y, mon);
            DayNumber(y, mon - 1, day) == 365 * z + Leaps(z) + 367 * MarchMonth(mon) / 12 + day - 719499
  {
    YearStartFormula(y);
    LeapStep(y);
    assert Leaps(EPOCH_YEAR - 1) == 477;
    MonthTableIsMonthStart(IsLeap(y), mon - 1);
    MarchMonthStart(mon, IsLeap(y));
  }

  lemma MarchMonthStart(mon: int, leap: bool)
    requires 1 <= mon <= 12
    ensures 367 * MarchMonth(mon) / 12 ==
      MON_YDAY[if leap then 1 else 0][mon - 1] + if mon <= 2 then 336 else if leap then -30 else -29
  {
  }

  lemma MarchDaysExact(year: int, mon: int, day: int)
    requires IsUint32(year) && 1 <= mon <= 12 && 1 <= day <= 31
    ensures MarchDays(Wrap32(MarchYear(year, mon)), MarchMonth(mon), day) == DayNumber(year, mon - 1, day) <==> Fits(year, mon)
  {
    MarchFormula(year, mon, day);
    var z, m := MarchYear(year, mon), MarchMonth(mon);
    if z < 0 { YearBeforeZero(m, day); } else { YearFromZero(z, m, day); }
  }

  /** The exact day count, in the March year and month. */
  function MarchSum(z: int, m: int, day: int): int { 365 * z + z / 4 - z / 100 + z / 400 + 367 * m / 12 + day - 719499 }

  lemma YearFromZero(z: int, m: int, day: int)
    requires IsUint32(z) && 1 <= m <= 12 && 1 <= day <= 31
    ensures Wrap32(z) == z && (MarchDays(z, m, day) == MarchSum(z, m, day) <==> 365 * z < 0x1_0000_0000)
  {
    NoDayWrap(z, m, day);
    assert Wrap32(367 * m) == 367 * m;
    WrapIsExact(365 * z);
  }

  lemma YearBeforeZero(m: int, day: int)
    requires 1 <= m <= 12 && 1 <= day <= 31
    ensures Wrap32(-1) == 0xFFFF_FFFF && MarchDays(0xFFFF_FFFF, m, day) != MarchSum(-1, m, day)
  {
    NoDayWrap(0xFFFF_FFFF, m, day);
    assert Wrap32(367 * m) == 367 * m;
    assert Wrap32(365 * 0xFFFF_FFFF) == 0x1_0000_0000 - 365;
    assert Leaps(0xFFFF_FFFF) == 1041529569 && Leaps(-1) == -1;
  }

  lemma MonthShift(mon: int)
    requires 1 <= mon <= 12
    ensures (ToInt32(Wrap32(mon - 2)) <= 0) == (mon <= 2)
    ensures mon <= 2 ==> Wrap32(Wrap32(mon - 2) + 12) == mon + 10
    ensures mon > 2 ==> Wrap32(mon - 2) == mon - 2
  {
    if mon == 1 { assert Wrap32(mon - 2) == 0xFFFF_FFFF; }
  }

  lemma NoDayWrap(z: int, m: int, day: int)
    requires IsUint32(z) && 1 <= m <= 12 && 1 <= day <= 31
    ensures Wrap32(z / 4 - z / 100 + z / 400 + 367 * m / 12 + day) == Leaps(z) + 367 * m / 12 + day
  {
  }

  /** mktime64 gives the right second of an existing date exactly when neither the step back
      to the March year nor the product by 365 wraps. */
  lemma Mktime64IsExactIffFits(year: int, mon: int, day: int, hour: int, min: int, sec: int)
    requires IsUint32(year) && 1 <= mon <= 12 && Exists(year, mon - 1, day, hour, min, sec)
    ensures Mktime64(year, mon, day, hour, min, sec) == Seconds(year, mon - 1, day, hour, min, sec) <==> Fits(year, mon)
  {
    Mktime64Shape(year, mon, day, hour, min, sec);
    MarchDaysExact(year, mon, day);
    SameClock(MarchDays(Wrap32(MarchYear(year, mon)), MarchMonth(mon), day), DayNumber(year, mon - 1, day), hour, min, sec);
  }

  lemma Mktime64Shape(year: int, mon: int, day: int, hour: int, min: int, sec: int)
    requires IsUint32(year) && 1 <= mon <= 12
    ensures Mktime64(year, mon, day, hour, min, sec)
         == ((MarchDays(Wrap32(MarchYear(year, mon)), MarchMonth(mon), day) * 24 + hour) * 60 + min) * 60 + sec
  {
    MonthShift(mon);
    assert Wrap32(year) == year;
  }

  lemma SameClock(d: int, e: int, hour: int, min: int, sec: int)
    ensures ((d * 24 + hour) * 60 + min) * 60 + sec == e * SECS_PER_DAY + hour * SECS_PER_HOUR + min * 60 + sec <==> d == e
  {
  }

  lemma WrapIsExact(x: int)
    requires x >= 0
    ensures Wrap32(x) == x <==> x < 0x1_0000_0000
  {
  }

  // ---------------------------------------------------------------- the two are inverses

  /** An instant has one broken-down form. */
  lemma BreakDownIsUnique(t: int, y: int, f: Tm, z: int, g: Tm)
    requires BreaksDown(t, y, f) && BreaksDown(t, z, g)
    ensures y == z && f == g
  {
    DayInYear(y, f.mon, f.mday);
    DayInYear(z, g.mon, g.mday);
    SameDaySameClock(DayNumber(y, f.mon, f.mday), f, DayNumber(z, g.mon, g.mday), g);
    YearIsUnique(y, f.yday, z, g.yday);
    if f.mon < g.mon { MonthsInOrder(IsLeap(y), f.mon, g.mon); }
    if g.mon < f.mon { MonthsInOrder(IsLeap(y), g.mon, f.mon); }
  }

  lemma SameDaySameClock(d: int, f: Tm, e: int, g: Tm)
    requires 0 <= f.hour < 24 && 0 <= f.min < 60 && 0 <= f.sec < 60 && 0 <= g.hour < 24 && 0 <= g.min < 60 && 0 <= g.sec < 60
    requires d * SECS_PER_DAY + f.hour * SECS_PER_HOUR + f.min * 60 + f.sec == e * SECS_PER_DAY + g.hour * SECS_PER_HOUR + g.min * 60 + g.sec
    ensures d == e && f.hour == g.hour && f.min == g.min && f.sec == g.sec
  {
  }

  lemma {:induction false} DayInYear(y: int, mon: int, mday: int)
    requires 0 <= mon < 12 && 1 <= mday <= MonthLength(IsLeap(y), mon)
    ensures InYear(y, MonthStart(IsLeap(y), mon) + mday - 1)
  {
    MonthTableIsMonthStart(IsLeap(y), mon);
  }

  /** mktime64 takes the fields gmtime64 gives for `t` back to `t`. */
  lemma MktimeInvertsGmtime(t: int, y: int, f: Tm)
    requires BreaksDown(t, y, f) && IsUint32(y) && Fits(y, f.mon + 1)
    ensures Mktime64(f.year + 1900, f.mon + 1, f.mday, f.hour, f.min, f.sec) == t
  {
    Mktime64IsExactIffFits(y, f.mon + 1, f.mday, f.hour, f.min, f.sec);
  }

  ghost function TmOf(y: int, mon: int, day: int, hour: int, min: int, sec: int): Tm
    requires 1 <= mon <= 12
  {
    Tm(y - 1900, mon - 1, day, hour, min, sec, (4 + DayNumber(y, mon - 1, day)) % 7, MonthStart(IsLeap(y), mon - 1) + day - 1)
  }

  /** gmtime64 takes the second mktime64 gives for an existing date back to that date, and to no other. */
  lemma {:induction false} GmtimeInvertsMktime(year: int, mon: int, day: int, hour: int, min: int, sec: int)
    requires IsUint32(year) && 1 <= mon <= 12 && Exists(year, mon - 1, day, hour, min, sec) && Fits(year, mon)
    ensures var t := Mktime64(year, mon, day, hour, min, sec);
            && BreaksDown(t, year, TmOf(year, mon, day, hour, min, sec))
            && forall y, f :: BreaksDown(t, y, f) ==> y == year && f == TmOf(year, mon, day, hour, min, sec)
  {
    Mktime64IsExactIffFits(year, mon, day, hour, min, sec);
    var t, g := Mktime64(year, mon, day, hour, min, sec), TmOf(year, mon, day, hour, min, sec);
    forall y, f | BreaksDown(t, y, f) ensures y == year && f == g {
      BreakDownIsUnique(t, y, f, year, g);
    }
  }

  /** The seconds-since-the-epoch formula of section 4.16 of POSIX.1-2017 Base Definitions. */
  lemma PosixFormula(t: int, y: int, f: Tm)
    requires BreaksDown(t, y, f) && t >= 0
    ensures t == f.sec + f.min * 60 + f.hour * 3600 + f.yday * 86400 + (f.year - 70) * 31536000
                 + (f.year - 69) / 4 * 86400 - (f.year - 1) / 100 * 86400 + (f.year + 299) / 400 * 86400
    ensures f.year >= 70
  {
    YearStartFormula(y);
    LeapsFrom1900(f.year);
    DayInYear(y, f.mon, f.mday);
    if y < EPOCH_YEAR { YearsInOrder(y, EPOCH_YEAR); }
  }

  lemma LeapsFrom1900(n: int)
    ensures Leaps(n + 1899) - Leaps(EPOCH_YEAR - 1) == (n - 69) / 4 - (n - 1) / 100 + (n + 299) / 400
  {
    assert (n + 1899) / 4 == (n - 69) / 4 + 492;
    assert (n + 1899) / 100 == (n - 1) / 100 + 19;
    assert (n + 1899) / 400 == (n + 299) / 400 + 4;
  }
}
