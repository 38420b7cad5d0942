/**
  `civil_from_days`: the proleptic Gregorian date of every day, checked against
  what the calendar says the next day is.
*/
module Calendar {
  datatype Date = Date(year: int, month: nat, day: nat)

  /** The code, as it stands: `div_euclid` and `rem_euclid` are Dafny's own. */
  function CivilFromDays(days: int): Date {
    var z := days + 719468;
    var era := z / 146097;
    var doe := z % 146097;
    var yoe := (doe - doe / 1460 + doe / 36524 - doe / 146096) / 365;
    var doy := doe - (365 * yoe + yoe / 4 - yoe / 100);
    DateInYear(yoe + era * 400, doy)
  }

  /** Month and day of the `doy`th day of a year that begins in March. */
  function DateInYear(y: int, doy: int): Date {
    var mp := (5 * doy + 2) / 153;
    var d := doy - (153 * mp + 2) / 5 + 1;
    var m := if mp < 10 then mp + 3 else mp - 9;
    Date(y + (if m <= 2 then 1 else 0), if m < 0 then 0 else m, if d < 0 then 0 else d)
  }

  predicate IsLeap(y: int) {
    y % 4 == 0 && (y % 100 != 0 || y % 400 == 0)
  }

  function MonthLength(y: int, m: nat): nat {
    if m == 2 then if IsLeap(y) then 29 else 28
    else if m in {4, 6, 9, 11} then 30
    else 31
  }

  predicate IsDate(d: Date) {
    1 <= d.month <= 12 && 1 <= d.day <= MonthLength(d.year, d.month)
  }

  function NextDay(d: Date): Date {
    if d.day < MonthLength(d.year, d.month) then Date(d.year, d.month, d.day + 1)
    else if d.month < 12 then Date(d.year, d.month + 1, 1)
    else Date(d.year + 1, 1, 1)
  }

  /** The first day of the year that begins in March of `y`. */
  function MarchFirst(y: int): int {
    365 * y + y / 4 - y / 100 + y / 400
  }

  /** A year from March ends with February of the next one. */
  function MarchYearLength(y: int): nat {
    if IsLeap(y + 1) then 366 else 365
  }

  lemma MarchYears(y: int)
    ensures MarchFirst(y + 1) == MarchFirst(y) + MarchYearLength(y)
  {
    Quotient(y, 4);
    Quotient(y, 100);
    Quotient(y, 400);
    Multiples(y + 1);
  }

  lemma Multiples(y: int)
    ensures (y % 400 == 0 ==> y % 100 == 0) && (y % 100 == 0 ==> y % 4 == 0)
  {
  }

  lemma Quotient(y: int, k: int)
    requires k > 1
    ensures (y + 1) / k == if (y + 1) % k == 0 then y / k + 1 else y / k
  {
    var q, r := y / k, y % k;
    assert y == k * q + r;
    if r == k - 1 {
      assert y + 1 == k * (q + 1);
      Unique(y + 1, k, q + 1, 0);
    } else {
      Unique(y + 1, k, q, r + 1);
    }
  }

  lemma Unique(x: int, k: int, q: int, r: int)
    requires k > 0 && x == k * q + r && 0 <= r < k
    ensures x / k == q && x % k == r
  {
    var t := x / k - q;
    assert k * (x / k) == k * q + k * t;
    assert k * t == r - x % k;
    assert k * -t == -(k * t);
    if t >= 1 {
      AtLeast(k, t);
    } else if t <= -1 {
      AtLeast(k, -t);
    }
  }

  lemma {:induction false} AtLeast(k: int, t: int)
    requires k > 0 && t >= 1
    ensures k * t >= k
    decreases t
  {
    if t > 1 {
      AtLeast(k, t - 1);
      assert k * t == k * (t - 1) + k;
    }
  }

  /** The year formula, on a day of year `100 c + 4 q + r` of the era. */
  lemma YearOfEra(c: int, q: int, r: int, doy: int)
    requires 0 <= c < 4 && 0 <= q < 25 && 0 <= r < 4
    requires 0 <= doy <= (if r == 3 && (q < 24 || c == 3) then 365 else 364)
    ensures var e := 36524 * c + 1461 * q + 365 * r + doy;
      0 <= e < 146097 && (e - e / 1460 + e / 36524 - e / 146096) / 365 == 100 * c + 4 * q + r
  {
    var s := 1461 * q + 365 * r + doy;
    var e := 36524 * c + s;
    var k := if 24 * c + q + 365 * r + doy >= 1460 then 1 else 0;
    assert e / 1460 == 25 * c + q + k;
    assert e / 36524 - e / 146096 == c;
    assert e - e / 1460 + e / 36524 - e / 146096 == 365 * (100 * c + 4 * q + r) + doy - k;
  }

  /** Every day of an era is a day of one of its years. */
  lemma DayOfEra(doe: int) returns (c: int, q: int, r: int, doy: int)
    requires 0 <= doe < 146097
    ensures 0 <= c < 4 && 0 <= q < 25 && 0 <= r < 4
    ensures 0 <= doy <= (if r == 3 && (q < 24 || c == 3) then 365 else 364)
    ensures doe == 36524 * c + 1461 * q + 365 * r + doy
  {
    c := if doe == 146096 then 3 else doe / 36524;
    var s := doe - 36524 * c;
    q := s / 1461;
    var u := s - 1461 * q;
    r := if u == 1460 then 3 else u / 365;
    doy := u - 365 * r;
  }

  /** Where a day is: its year from March, and its place in it. */
  ghost predicate Falls(days: int, y: int, doy: int) {
    days + 719468 == MarchFirst(y) + doy && 0 <= doy < MarchYearLength(y)
  }

  lemma CivilFalls(days: int) returns (y: int, doy: int)
    ensures Falls(days, y, doy) && CivilFromDays(days) == DateInYear(y, doy)
  {
    hide DateInYear, IsLeap, MarchYearLength, MarchFirst;
    var z := days + 719468;
    var era, doe := z / 146097, z % 146097;
    var c, q, r;
    c, q, r, doy := DayOfEra(doe);
    YearOfEra(c, q, r, doy);
    var yoe := 100 * c + 4 * q + r;
    InCentury(c, q, r);
    y := yoe + era * 400;
    EraShift(yoe, era);
    LeapShift(yoe, era, c, q, r);
    assert z == 146097 * era + doe;
  }

  lemma InCentury(c: int, q: int, r: int)
    requires 0 <= c < 4 && 0 <= q < 25 && 0 <= r < 4
    ensures (100 * c + 4 * q + r) / 4 == 25 * c + q && (100 * c + 4 * q + r) / 100 == c
  {
  }

  lemma EraShift(yoe: int, era: int)
    requires 0 <= yoe < 400
    ensures MarchFirst(yoe + era * 400) == 146097 * era + 365 * yoe + yoe / 4 - yoe / 100
  {
    var y := yoe + era * 400;
    Unique(y, 4, yoe / 4 + 100 * era, yoe % 4);
    Unique(y, 100, yoe / 100 + 4 * era, yoe % 100);
    Unique(y, 400, era, yoe);
  }

  lemma LeapShift(yoe: int, era: int, c: int, q: int, r: int)
    requires 0 <= c < 4 && 0 <= q < 25 && 0 <= r < 4 && yoe == 100 * c + 4 * q + r
    ensures MarchYearLength(yoe + era * 400) == if r == 3 && (q < 24 || c == 3) then 366 else 365
  {
    var n := yoe + 1;
    var y := n + era * 400;
    Unique(y, 4, n / 4 + 100 * era, n % 4);
    Unique(y, 100, n / 100 + 4 * era, n % 100);
    Unique(y, 400, n / 400 + era, n % 400);
    assert n % 4 == 0 <==> r == 3;
    assert n % 100 == 0 <==> r == 3 && q == 24;
    assert n % 400 == 0 <==> r == 3 && q == 24 && c == 3;
  }

  /** A day falls in one year only. */
  lemma FallsOnce(days: int, y: int, doy: int, y': int, doy': int)
    requires Falls(days, y, doy) && Falls(days, y', doy')
    ensures y == y' && doy == doy'
  {
    if y < y' {
      LaterYear(y, y');
    } else if y' < y {
      LaterYear(y', y);
    }
  }

  lemma {:induction false} LaterYear(y: int, y': int)
    requires y < y'
    ensures MarchFirst(y') >= MarchFirst(y) + MarchYearLength(y)
    decreases y' - y
  {
    MarchYears(y);
    if y + 1 < y' {
      LaterYear(y + 1, y');
    }
  }

  /** The first day of month `mp`, counted from March, in a year from March. */
  function MonthFirst(mp: nat): nat {
    (153 * mp + 2) / 5
  }

  lemma MonthOfYear(y: int, doy: int)
    requires 0 <= doy < MarchYearLength(y)
    ensures var mp := (5 * doy + 2) / 153;
      && 0 <= mp < 12 && MonthFirst(mp) <= doy
      && doy - MonthFirst(mp) < MonthLength(if mp < 10 then y else y + 1, if mp < 10 then mp + 3 else mp - 9)
  {
  }

  lemma InYear(y: int, doy: int)
    requires 0 <= doy < MarchYearLength(y)
    ensures IsDate(DateInYear(y, doy))
    ensures NextDay(DateInYear(y, doy)) ==
      if doy + 1 < MarchYearLength(y) then DateInYear(y, doy + 1) else DateInYear(y + 1, 0)
  {
    hide DateInYear, MonthFirst, MarchYearLength, IsLeap;
    MonthOfYear(y, doy);
    var mp := (5 * doy + 2) / 153;
    YearFits(y);
    DateParts(y, doy, mp);
    MonthSpan(y, mp);
    if doy + 1 < MarchYearLength(y) {
      NextMonth(doy, mp);
      DateParts(y, doy + 1, (5 * (doy + 1) + 2) / 153);
    } else {
      LastMonth(y, doy);
      DateParts(y + 1, 0, 0);
    }
  }

  lemma YearFits(y: int)
    ensures MarchYearLength(y) <= 366 && MonthFirst(0) == 0
  {
  }

  lemma DateParts(y: int, doy: int, mp: int)
    requires 0 <= doy <= 366 && mp == (5 * doy + 2) / 153 && 0 <= mp < 12 && MonthFirst(mp) <= doy
    ensures DateInYear(y, doy) ==
      Date(if mp < 10 then y else y + 1, if mp < 10 then mp + 3 else mp - 9, doy - MonthFirst(mp) + 1)
  {
  }

  /** From one month's first day to the next one's. */
  lemma MonthSpan(y: int, mp: int)
    requires 0 <= mp < 12
    ensures mp < 11 ==>
      MonthFirst(mp + 1) - MonthFirst(mp) ==
        MonthLength(if mp < 10 then y else y + 1, if mp < 10 then mp + 3 else mp - 9)
    ensures MarchYearLength(y) - MonthFirst(11) == MonthLength(y + 1, 2)
  {
  }

  lemma NextMonth(doy: int, mp: int)
    requires 0 <= doy < 365 && mp == (5 * doy + 2) / 153
    ensures (5 * (doy + 1) + 2) / 153 == if doy + 1 == MonthFirst(mp + 1) then mp + 1 else mp
    ensures MonthFirst((5 * (doy + 1) + 2) / 153) <= doy + 1 && (5 * (doy + 1) + 2) / 153 < 12
  {
  }

  lemma LastMonth(y: int, doy: int)
    requires doy == MarchYearLength(y) - 1
    ensures (5 * doy + 2) / 153 == 11
  {
  }

  /** The result is a date, and the day after it is the calendar's next day. */
  lemma Successor(days: int)
    ensures IsDate(CivilFromDays(days)) && CivilFromDays(days + 1) == NextDay(CivilFromDays(days))
  {
    hide CivilFromDays, DateInYear, IsDate, NextDay, MarchFirst, MarchYearLength;
    var y, doy := CivilFalls(days);
    var y', doy' := CivilFalls(days + 1);
    InYear(y, doy);
    MarchYears(y);
    if doy + 1 < MarchYearLength(y) {
      FallsOnce(days + 1, y, doy + 1, y', doy');
    } else {
      YearNotEmpty(y + 1);
      FallsOnce(days + 1, y + 1, 0, y', doy');
    }
  }

  lemma YearNotEmpty(y: int)
    ensures MarchYearLength(y) > 0
  {
  }

  /** The inverse: the day on which a date falls. */
  function DaysFromCivil(d: Date): int {
    var y := if d.month <= 2 then d.year - 1 else d.year;
    var mp := if d.month <= 2 then d.month + 9 else d.month - 3;
    MarchFirst(y) + (if mp < 0 then 0 else MonthFirst(mp)) + d.day - 1 - 719468
  }

  lemma DaysOfDate(days: int)
    ensures DaysFromCivil(CivilFromDays(days)) == days
  {
    var y, doy := CivilFalls(days);
    MonthOfYear(y, doy);
  }

  /** A date of a month, in its year from March. */
  lemma DateFalls(d: Date) returns (y: int, doy: int)
    requires IsDate(d)
    ensures Falls(DaysFromCivil(d), y, doy) && DateInYear(y, doy) == d
  {
    y := if d.month <= 2 then d.year - 1 else d.year;
    var mp: nat := if d.month <= 2 then d.month + 9 else d.month - 3;
    doy := MonthFirst(mp) + d.day - 1;
    assert (5 * doy + 2) / 153 == mp;
  }

  /** The date function is a bijection between days and dates. */
  lemma DateOfDays(d: Date)
    requires IsDate(d)
    ensures CivilFromDays(DaysFromCivil(d)) == d
  {
    var y, doy := DateFalls(d);
    var y', doy' := CivilFalls(DaysFromCivil(d));
    FallsOnce(DaysFromCivil(d), y, doy, y', doy');
  }

  /** Day 0 is the first of January 1970. */
  lemma EpochDay()
    ensures CivilFromDays(0) == Date(1970, 1, 1)
  {
    var d := Date(1970, 1, 1);
    assert MonthFirst(10) == 306 && MarchFirst(1969) == 719162;
    assert DaysFromCivil(d) == 0;
    hide CivilFromDays, DaysFromCivil;
    DateOfDays(d);
  }

  predicate Earlier(a: Date, b: Date) {
    a.year < b.year || (a.year == b.year && (a.month < b.month || (a.month == b.month && a.day < b.day)))
  }

  /** Later days have later dates. */
  lemma {:induction false} Monotone(a: int, b: int)
    requires a < b
    ensures Earlier(CivilFromDays(a), CivilFromDays(b))
    decreases b - a
  {
    Successor(a);
    hide CivilFromDays;
    if a + 1 < b {
      Monotone(a + 1, b);
    }
  }
}
