/** Calendar dates from day numbers. */
module Calendar {

  datatype Date = Date(y: int, m: int, d: int)

  // ---------------------------------------------------------------- the conversion

  function YearOfEra(doe: int): int {
    (doe - doe / 1460 + doe / 36524 - doe / 146096) / 365
  }

  /** Days of an era before its year `yoe`, years starting in March. */
  function YearStart(yoe: int): int {
    365 * yoe + yoe / 4 - yoe / 100
  }

  /** Month and day of a day of the March-based year; January and February count to the next year. */
  function MonthDay(y: int, doy: int): Date {
    var mp := (5 * doy + 2) / 153;
    var d := doy - (153 * mp + 2) / 5 + 1;
    var m := if mp < 10 then mp + 3 else mp - 9;
    Date(if m <= 2 then y + 1 else y, m, d)
  }

  /** Days since 1970-01-01 to a date. */
  function DaysToYmd(days: nat): Date {
    var z := days + 719468;
    var era := z / 146097;
    var doe := z - era * 146097;
    var yoe := YearOfEra(doe);
    MonthDay(yoe + era * 400, doe - YearStart(yoe))
  }

  // ---------------------------------------------------------------- the Gregorian calendar

  predicate Leap(y: int) {
    y % 4 == 0 && (y % 100 != 0 || y % 400 == 0)
  }

  function DaysIn(y: int, m: int): int {
    if m == 2 then (if Leap(y) then 29 else 28)
    else if m == 4 || m == 6 || m == 9 || m == 11 then 30 else 31
  }

  /** The day after. */
  function Next(x: Date): Date {
    if x.d < DaysIn(x.y, x.m) then Date(x.y, x.m, x.d + 1)
    else if x.m < 12 then Date(x.y, x.m + 1, 1)
    else Date(x.y + 1, 1, 1)
  }

  // ---------------------------------------------------------------- why they agree

  /** Length of year `yoe` of an era: 366 when it ends in a leap day. */
  function YearLength(yoe: int): int {
    if Leap(yoe + 1) then 366 else 365
  }

  lemma YearStep(yoe: int)
    requires 0 <= yoe < 400
    ensures yoe < 399 ==> YearStart(yoe + 1) == YearStart(yoe) + YearLength(yoe)
    ensures yoe == 399 ==> YearStart(yoe) + YearLength(yoe) == 146097
  {
  }

  /** `a` leap cycles, `b` centuries and `k` years into an era, by the divisions of the formula. */
  predicate Divided(doe: int, a: int, b: int, k: int) {
    && 0 <= doe < 146096 && 1460 * a <= doe < 1460 * a + 1460 && 36524 * b <= doe < 36524 * b + 36524
    && 365 * k <= doe - a + b < 365 * k + 365
  }

  lemma CenturyOf(doe: int, a: int, b: int, k: int)
    requires Divided(doe, a, b, k)
    ensures 0 <= b <= 3 && 100 * b <= k < 100 * b + 100
  {
  }

  lemma YearBegun(doe: int, a: int, b: int, k: int)
    requires Divided(doe, a, b, k)
    ensures YearStart(k) <= doe
  {
    CenturyOf(doe, a, b, k);
    assert k / 100 == b;
  }

  lemma YearNotOver(doe: int, a: int, b: int, k: int)
    requires Divided(doe, a, b, k)
    ensures doe < YearStart(k) + YearLength(k)
  {
    CenturyOf(doe, a, b, k);
    assert k / 100 == b;
    YearStep(k);
    if k < 399 { assert (k + 1) / 100 == b || k + 1 == 100 * b + 100; }
  }

  /** The division formula finds the year a day of the era lies in. */
  lemma YearFound(doe: int)
    requires 0 <= doe < 146097
    ensures var y := YearOfEra(doe); 0 <= y < 400 && YearStart(y) <= doe < YearStart(y) + YearLength(y)
  {
    if doe < 146096 {
      var a, b, k := doe / 1460, doe / 36524, YearOfEra(doe);
      assert Divided(doe, a, b, k);
      CenturyOf(doe, a, b, k);
      YearBegun(doe, a, b, k);
      YearNotOver(doe, a, b, k);
    }
  }

  /** Days of one year. */
  lemma SameYear(doe: int, y: int)
    requires 0 <= doe < 146097 && 0 <= y < 400 && YearStart(y) <= doe < YearStart(y) + YearLength(y)
    ensures YearOfEra(doe) == y
  {
    YearFound(doe);
    YearsApart(y, YearOfEra(doe));
    YearsApart(YearOfEra(doe), y);
  }

  lemma YearsApart(y: int, z: int)
    requires 0 <= y < 400 && 0 <= z < 400
    ensures y < z ==> YearStart(y) + YearLength(y) <= YearStart(z)
    decreases z - y
  {
    if y < z {
      YearStep(y);
      if y + 1 < z { YearsApart(y + 1, z); }
    }
  }

  lemma LeapEras(y: int, era: int)
    ensures Leap(y + era * 400) <==> Leap(y)
  {
    Multiples4(y, 100 * era);
    Multiples100(y, 4 * era);
    Multiples400(y, era);
    assert y + era * 400 == y + 4 * (100 * era) == y + 100 * (4 * era) == y + 400 * era;
  }

  lemma Multiples4(y: int, a: int)
    ensures (y + 4 * a) % 4 == y % 4
  {
  }

  lemma Multiples100(y: int, a: int)
    ensures (y + 100 * a) % 100 == y % 100
  {
  }

  lemma Multiples400(y: int, a: int)
    ensures (y + 400 * a) % 400 == y % 400
  {
  }

  /** The date of day `doe` of era `era`. */
  lemma DateAt(days: nat, era: int, doe: int)
    requires days + 719468 == era * 146097 + doe && 0 <= doe < 146097
    ensures DaysToYmd(days) == MonthDay(YearOfEra(doe) + era * 400, doe - YearStart(YearOfEra(doe)))
  {
    hide YearOfEra, YearStart, MonthDay;
    assert (era * 146097 + doe) / 146097 == era;
  }

  /** Within a March-based year, one day on is the next date. */
  lemma DayStep(y: int, doy: int)
    requires 0 <= doy && doy + 1 < (if Leap(y + 1) then 366 else 365)
    ensures MonthDay(y, doy + 1) == Next(MonthDay(y, doy))
  {
    hide Leap;
    var mp := (5 * doy + 2) / 153;
    assert 0 <= mp <= 11;
  }

  /** The last day of February is followed by the first of March. */
  lemma YearEnd(y: int)
    ensures MonthDay(y + 1, 0) == Next(MonthDay(y, (if Leap(y + 1) then 366 else 365) - 1))
  {
    hide Leap;
  }

  lemma Epoch()
    ensures DaysToYmd(0) == Date(1970, 1, 1)
  {
    DateAt(0, 4, 135080);
    hide DaysToYmd;
    assert YearOfEra(135080) == 369 && YearStart(369) == 134774;
  }

  /** Each day number gives the date after the one before it. */
  lemma Successor(days: nat)
    ensures DaysToYmd(days + 1) == Next(DaysToYmd(days))
  {
    hide YearOfEra, YearStart, MonthDay, Next, Leap, DaysToYmd;
    var era := (days + 719468) / 146097;
    var doe := days + 719468 - era * 146097;
    assert 0 <= doe < 146097;
    var yoe := YearOfEra(doe);
    DateAt(days, era, doe);
    YearFound(doe);
    YearStep(yoe);
    LeapEras(yoe + 1, era);
    var y, doy := yoe + era * 400, doe - YearStart(yoe);
    if doy + 1 < YearLength(yoe) {
      YearPositive(yoe);
      DateAt(days + 1, era, doe + 1);
      SameYear(doe + 1, yoe);
      DayStep(y, doy);
    } else if yoe < 399 {
      YearStep(yoe + 1);
      YearPositive(yoe + 1);
      DateAt(days + 1, era, doe + 1);
      SameYear(doe + 1, yoe + 1);
      YearEnd(y);
    } else {
      DateAt(days + 1, era + 1, 0);
      FirstDay();
      YearEnd(y);
    }
  }

  lemma YearPositive(y: int)
    requires 0 <= y < 400
    ensures YearLength(y) > 0 && YearStart(y) + YearLength(y) <= 146097
  {
    YearsApart(y, 399);
    YearStep(399);
  }

  lemma FirstDay()
    ensures YearOfEra(0) == 0 && YearStart(0) == 0
  {
  }

  /** Counting days one by one from 1970-01-01. */
  function CountDays(n: nat): Date {
    if n == 0 then Date(1970, 1, 1) else Next(CountDays(n - 1))
  }

  /** The conversion agrees with counting, through leap years and centuries. */
  lemma {:induction false} AgreesWithCounting(n: nat)
    ensures DaysToYmd(n) == CountDays(n)
  {
    hide DaysToYmd, Next;
    if n == 0 {
      Epoch();
    } else {
      AgreesWithCounting(n - 1);
      Successor(n - 1);
    }
  }
}
