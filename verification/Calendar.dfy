/** Calendar arithmetic of the runtime's date library.

    64-bit integers are taken as unbounded; `unsigned` values wrap modulo 2^32,
    and division truncates toward zero as in C++.  Serials are exact reals. */
module Calendar {

  const TWO32 := 0x1_0000_0000

  function U32(x: int): (r: nat)
    ensures r < TWO32
    ensures 0 <= x < TWO32 ==> r == x
  {
    if 0 <= x < TWO32 then x else x % TWO32
  }

  /** C++ division and remainder by a positive divisor. */
  function Quot(a: int, b: nat): int
    requires b > 0
  {
    if a >= 0 then a / b else -((-a) / b)
  }

  function Rem(a: int, b: nat): int
    requires b > 0
  {
    a - b * Quot(a, b)
  }

  function DaysFromCivil(year: int, m: nat, d: nat): int {
    var y := if m <= 2 then year - 1 else year;
    var era := Quot(if y >= 0 then y else y - 399, 400);
    era * 146097 + DayOfEra(U32(y - era * 400), DayOfYear(m, d)) - 719468
  }

  /** Days since the first of March, from 0. */
  function DayOfYear(m: nat, d: nat): nat {
    var shifted := U32(m + (if m > 2 then U32(-3) else 9));
    U32(U32(153 * shifted + 2) / 5 + d - 1)
  }

  function DayOfEra(yoe: nat, doy: nat): nat { U32(yoe * 365 + yoe / 4 - yoe / 100 + doy) }

  datatype Civil = Civil(year: int, month: nat, day: nat)

  function CivilFromDays(days: int): Civil {
    var z := days + 719468;
    var era := Quot(if z >= 0 then z else z - 146096, 146097);
    CivilOfEraDay(era, U32(z - era * 146097))
  }

  function CivilOfEraDay(era: int, doe: nat): Civil {
    var yoe := YearOfEra(doe);
    CivilOfYearDay(yoe + era * 400, U32(doe - (365 * yoe + yoe / 4 - yoe / 100)))
  }

  function YearOfEra(doe: nat): nat { U32(doe - doe / 1460 + doe / 36524 - doe / 146096) / 365 }

  function CivilOfYearDay(y: int, doy: nat): Civil {
    var mp := U32(5 * doy + 2) / 153;
    var d := U32(doy - (153 * mp + 2) / 5 + 1);
    var m := U32(mp + (if mp < 10 then 3 else U32(-9)));
    Civil(if m <= 2 then y + 1 else y, m, d)
  }

  /** The day number of 1899-12-30. */
  const EPOCH := -25569

  lemma EpochIsRight()
    ensures DaysFromCivil(1899, 12, 30) == EPOCH && DaysFromCivil(1970, 1, 1) == 0
  {
  }

  predicate IsLeapYear(y: int) {
    Rem(y, 4) == 0 && (Rem(y, 100) != 0 || Rem(y, 400) == 0)
  }

  function DaysInMonth(y: int, m: nat): nat
    requires 1 <= m <= 12
  {
    if m == 2 && IsLeapYear(y) then 29
    else [31, 28, 31, 30, 31, 30, 31, 31, 30, 31, 30, 31][m - 1]
  }

  predicate Valid(c: Civil) {
    1 <= c.month <= 12 && 1 <= c.day <= DaysInMonth(c.year, c.month)
  }

  /** The day after a date, read off the month lengths. */
  function Tomorrow(c: Civil): Civil
    requires Valid(c)
  {
    if c.day < DaysInMonth(c.year, c.month) then c.(day := c.day + 1)
    else if c.month < 12 then Civil(c.year, c.month + 1, 1)
    else Civil(c.year + 1, 1, 1)
  }

  /** Days before the March-based year `y` of an era. */
  function YearStart(y: nat): nat { 365 * y + y / 4 - y / 100 + y / 400 }

  lemma FloorDivision(a: int, b: nat)
    requires b > 0
    ensures Quot(if a >= 0 then a else a - (b - 1), b) == a / b
  {
    if a < 0 {
      var q := a / b;
      var r := a % b;
      assert -(a - (b - 1)) == b * (-q) + (b - 1 - r);
      QuotientUnique(-(a - (b - 1)), b, -q, b - 1 - r);
    }
  }

  lemma QuotientUnique(a: int, b: int, q: int, r: int)
    requires b > 0 && 0 <= r < b && a == b * q + r
    ensures a / b == q
  {
    var d := a / b - q;
    assert b * d == r - a % b;
    ProductSign(b, d);
  }

  lemma ProductSign(b: int, d: int)
    requires -b < b * d < b
    ensures d == 0
  {
  }

  lemma Between(x: int, b: int, q: int)
    requires b > 0 && b * q <= x < b * q + b
    ensures x / b == q
  {
    QuotientUnique(x, b, q, x - b * q);
  }

  lemma LeapByMod(y: int)
    ensures IsLeapYear(y) <==> y % 4 == 0 && (y % 100 != 0 || y % 400 == 0)
  {
    ExactRemainder(y, 4);
    ExactRemainder(y, 100);
    ExactRemainder(y, 400);
  }

  lemma ExactRemainder(y: int, b: nat)
    requires b > 0
    ensures Rem(y, b) == 0 <==> y % b == 0
  {
    if y < 0 { ExactNegative(-y, b); }
  }

  lemma ExactNegative(x: int, b: int)
    requires b > 0 && x > 0
    ensures x % b == 0 <==> (-x) % b == 0
  {
    var q := x / b;
    var r := x % b;
    assert x == b * q + r;
    if r == 0 {
      assert -x == b * (-q);
      QuotientUnique(-x, b, -q, 0);
    } else {
      assert -x == b * (-q - 1) + (b - r);
      QuotientUnique(-x, b, -q - 1, b - r);
    }
  }

  /** A day of an era, by century, four-year cycle, and day in the cycle. */
  ghost predicate InEra(doe: nat, c: nat, q: nat, s: nat) {
    && c < 4 && q <= 24 && s <= 1460
    && doe == 36524 * c + 1461 * q + s
    && (c < 3 ==> 1461 * q + s < 36524)
  }

  lemma EraParts(doe: nat) returns (c: nat, q: nat, s: nat)
    requires doe < 146097
    ensures InEra(doe, c, q, s)
  {
    c := if doe < 36524 then 0 else if doe < 73048 then 1 else if doe < 109572 then 2 else 3;
    q := (doe - 36524 * c) / 1461;
    s := (doe - 36524 * c) % 1461;
  }

  lemma Corrections(doe: nat, c: nat, q: nat, s: nat) returns (t: nat)
    requires InEra(doe, c, q, s)
    ensures t == (if 24 * c + q + s >= 1460 then 1 else 0)
    ensures doe / 1460 == 25 * c + q + t && doe / 36524 - doe / 146096 == c
  {
    t := if 24 * c + q + s >= 1460 then 1 else 0;
    Between(doe, 1460, 25 * c + q + t);
    if doe == 146096 {
      assert doe / 36524 == 4 && doe / 146096 == 1;
    } else {
      Between(doe, 36524, c);
      Between(doe, 146096, 0);
    }
  }

  lemma StartOfYear(c: nat, q: nat, a: nat)
    requires c < 4 && q <= 24 && a <= 4
    ensures q < 24 || a < 4 ==> YearStart(100 * c + 4 * q + a) == 36524 * c + 1461 * q + 365 * a + a / 4
    ensures q == 24 && a == 4 ==> YearStart(100 * c + 4 * q + a) == 36524 * c + 1461 * q + 1460 + c / 3
  {
    var y := 100 * c + 4 * q + a;
    Between(y, 4, 25 * c + q + a / 4);
    Between(y, 100, if q == 24 && a == 4 then c + 1 else c);
    Between(y, 400, if q == 24 && a == 4 && c == 3 then 1 else 0);
  }

  lemma YearOfParts(doe: nat, k: int, c: int, y: nat)
    requires doe / 1460 == k && doe / 36524 - doe / 146096 == c
    requires 365 * y <= doe - k + c < 365 * y + 365 && doe - k + c < TWO32
    ensures YearOfEra(doe) == y
  {
    Between(doe - k + c, 365, y);
  }

  /** The closed form for the year of an era finds the year its day lies in. */
  lemma EraYearIsRight(doe: nat)
    requires doe < 146097
    ensures YearOfEra(doe) < 400
    ensures YearStart(YearOfEra(doe)) <= doe < YearStart(YearOfEra(doe) + 1)
  {
    var c, q, s := EraParts(doe);
    var a := if s < 365 then 0 else if s < 730 then 1 else if s < 1095 then 2 else 3;
    YearOfPartsInEra(doe, c, q, s, a);
    StartOfYear(c, q, a);
    StartOfYear(c, q, a + 1);
  }

  lemma YearOfPartsInEra(doe: nat, c: nat, q: nat, s: nat, a: nat)
    requires InEra(doe, c, q, s)
    requires a < 4 && 365 * a <= s && (a < 3 ==> s < 365 * a + 365)
    ensures YearOfEra(doe) == 100 * c + 4 * q + a
  {
    var t := Corrections(doe, c, q, s);
    YearOfParts(doe, 25 * c + q + t, c, 100 * c + 4 * q + a);
  }

  lemma {:induction false} YearStartGrows(a: nat, b: nat)
    ensures a < b ==> YearStart(a) + 365 <= YearStart(b)
    decreases b
  {
    if a < b {
      YearStep(b - 1);
      YearStartGrows(a, b - 1);
    }
  }

  /** An era year has 366 days exactly when the calendar year that it ends in is
      a leap year. */
  lemma YearLength(era: int, yoe: nat)
    requires yoe < 400
    ensures YearStart(yoe + 1) - YearStart(yoe) == if IsLeapYear(yoe + era * 400 + 1) then 366 else 365
  {
    LeapByMod(yoe + era * 400 + 1);
    LeapByEra(era, yoe + 1);
    YearStep(yoe);
  }

  lemma LeapByEra(era: int, y: nat)
    ensures (y + era * 400) % 4 == y % 4 && (y + era * 400) % 100 == y % 100 && (y + era * 400) % 400 == y % 400
  {
    ModShift(y, 4, 100 * era);
    ModShift(y, 100, 4 * era);
    ModShift(y, 400, era);
  }

  lemma ModShift(y: int, b: int, k: int)
    requires b > 0
    ensures (y + b * k) % b == y % b
  {
    var q := y / b;
    assert y + b * k == b * (q + k) + y % b;
    QuotientUnique(y + b * k, b, q + k, y % b);
  }

  lemma YearStep(y: nat)
    ensures YearStart(y + 1) - YearStart(y)
         == if (y + 1) % 4 == 0 && ((y + 1) % 100 != 0 || (y + 1) % 400 == 0) then 366 else 365
  {
    Steps(y, 4);
    Steps(y, 100);
    Steps(y, 400);
    assert (y + 1) % 400 == 0 ==> (y + 1) % 100 == 0 && (y + 1) % 4 == 0;
    assert (y + 1) % 100 == 0 ==> (y + 1) % 4 == 0;
  }

  lemma Steps(y: nat, b: nat)
    requires b > 1
    ensures (y + 1) / b - y / b == if (y + 1) % b == 0 then 1 else 0
  {
    var q := y / b;
    var r := y % b;
    assert y == b * q + r;
    if r == b - 1 { QuotientUnique(y + 1, b, q + 1, 0); } else { QuotientUnique(y + 1, b, q, r + 1); }
  }

  /** Day-of-year and month: months counted from March, with the start of each. */
  function MonthStart(mp: nat): nat { (153 * mp + 2) / 5 }

  function Month(mp: nat): nat { if mp < 10 then mp + 3 else mp - 9 }

  lemma MonthOfDay(doy: nat)
    requires doy < 366
    ensures var mp := (5 * doy + 2) / 153; mp < 12 && MonthStart(mp) <= doy && (mp < 11 ==> doy < MonthStart(mp + 1))
  {
  }

  lemma MonthLength(y: int, mp: nat)
    requires mp < 12
    ensures mp < 11 ==> MonthStart(mp + 1) - MonthStart(mp) == DaysInMonth(y, Month(mp))
    ensures mp == 11 ==> MonthStart(11) == 337 && Month(mp) == 2
  {
    assert mp == 0 || mp == 1 || mp == 2 || mp == 3 || mp == 4 || mp == 5 || mp == 6 || mp == 7 || mp == 8 ||
           mp == 9 || mp == 10 || mp == 11;
  }

  /** The parts of a day number: era, year of era, month from March, day of month. */
  ghost predicate Splits(days: int, era: int, yoe: nat, mp: nat, d: nat) {
    && yoe < 400 && mp < 12 && d >= 1
    && days + 719468 == era * 146097 + YearStart(yoe) + MonthStart(mp) + d - 1
    && YearStart(yoe) + MonthStart(mp) + d - 1 < YearStart(yoe + 1)
    && (mp < 11 ==> d <= MonthStart(mp + 1) - MonthStart(mp))
  }

  ghost function CivilOf(era: int, yoe: nat, mp: nat, d: nat): Civil
    requires mp < 12
  {
    Civil(yoe + era * 400 + (if mp >= 10 then 1 else 0), Month(mp), d)
  }

  lemma MonthStartGrows(a: nat, b: nat)
    ensures a < b ==> MonthStart(a + 1) <= MonthStart(b)
  {
  }

  lemma SplitIsUnique(days: int, e: int, y: nat, mp: nat, d: nat, e': int, y': nat, mp': nat, d': nat)
    requires Splits(days, e, y, mp, d) && Splits(days, e', y', mp', d')
    ensures e == e' && y == y' && mp == mp' && d == d'
  {
    StartsOfEra();
    hide YearStart, MonthStart;
    YearStartGrows(y + 1, 400);
    YearStartGrows(y' + 1, 400);
    YearStartGrows(y + 1, y');
    YearStartGrows(y' + 1, y);
    assert e == e' && y == y';
    MonthStartGrows(mp, mp');
    MonthStartGrows(mp', mp);
  }

  lemma CivilSplits(days: int) returns (era: int, yoe: nat, mp: nat, d: nat)
    ensures Splits(days, era, yoe, mp, d) && CivilFromDays(days) == CivilOf(era, yoe, mp, d)
  {
    era := (days + 719468) / 146097;
    var doe := (days + 719468) % 146097;
    EraYearIsRight(doe);
    yoe := YearOfEra(doe);
    YearLength(era, yoe);
    var doy := doe - YearStart(yoe);
    MonthOfDay(doy);
    mp := (5 * doy + 2) / 153;
    d := doy - MonthStart(mp) + 1;
    CivilFromParts(days, era, doe, yoe, doy, mp);
  }

  lemma CivilFromParts(days: int, era: int, doe: nat, yoe: nat, doy: nat, mp: nat)
    requires days + 719468 == era * 146097 + doe && doe < 146097
    requires YearOfEra(doe) == yoe && yoe < 400 && doe == YearStart(yoe) + doy && doy < 366
    requires (5 * doy + 2) / 153 == mp && mp < 12 && MonthStart(mp) <= doy
    ensures CivilFromDays(days) == CivilOf(era, yoe, mp, doy - MonthStart(mp) + 1)
  {
    EraOfDays(days, era, doe);
    hide CivilOfEraDay, CivilOf, YearOfEra, YearStart, MonthStart, IsLeapYear;
    EraDayIsRight(era, doe, yoe, doy, mp);
  }

  lemma EraOfDays(days: int, era: int, doe: nat)
    requires days + 719468 == era * 146097 + doe && doe < 146097
    ensures CivilFromDays(days) == CivilOfEraDay(era, doe)
  {
    hide CivilOfEraDay;
    FloorDivision(days + 719468, 146097);
    Between(days + 719468, 146097, era);
  }

  lemma EraDayIsRight(era: int, doe: nat, yoe: nat, doy: nat, mp: nat)
    requires YearOfEra(doe) == yoe && yoe < 400 && doe == YearStart(yoe) + doy && doy < 366
    requires (5 * doy + 2) / 153 == mp && mp < 12 && MonthStart(mp) <= doy
    ensures CivilOfEraDay(era, doe) == CivilOf(era, yoe, mp, doy - MonthStart(mp) + 1)
  {
    assert yoe / 400 == 0;
    YearDayIsRight(yoe + era * 400, doy, mp);
  }

  lemma YearDayIsRight(y: int, doy: nat, mp: nat)
    requires doy < 366 && (5 * doy + 2) / 153 == mp && mp < 12 && MonthStart(mp) <= doy
    ensures CivilOfYearDay(y, doy) == Civil(if mp >= 10 then y + 1 else y, Month(mp), doy - MonthStart(mp) + 1)
  {
    assert U32(-9) == TWO32 - 9;
    assert mp >= 10 ==> U32(mp + U32(-9)) == mp - 9;
  }

  lemma DaysSplit(c: Civil) returns (era: int, yoe: nat, mp: nat)
    requires Valid(c)
    ensures Splits(DaysFromCivil(c.year, c.month, c.day), era, yoe, mp, c.day) && c == CivilOf(era, yoe, mp, c.day)
  {
    var y := if c.month <= 2 then c.year - 1 else c.year;
    era := y / 400;
    yoe := y % 400;
    mp := if c.month > 2 then c.month - 3 else c.month + 9;
    YearLength(era, yoe);
    MonthLength(c.year, mp);
    DaysFromParts(c, era, yoe, mp);
    YearStartGrows(yoe, 400);
  }

  lemma DaysFromParts(c: Civil, era: int, yoe: nat, mp: nat)
    requires Valid(c) && yoe < 400 && mp < 12
    requires (if c.month <= 2 then c.year - 1 else c.year) == era * 400 + yoe
    requires mp == (if c.month > 2 then c.month - 3 else c.month + 9)
    ensures DaysFromCivil(c.year, c.month, c.day) + 719468
         == era * 146097 + YearStart(yoe) + MonthStart(mp) + c.day - 1
  {
    var y := era * 400 + yoe;
    FloorDivision(y, 400);
    Between(y, 400, era);
    DayOfYearIsRight(c, mp);
    DayOfEraIsRight(yoe, MonthStart(mp) + c.day - 1);
    hide Quot, DayOfYear, DayOfEra, YearStart, MonthStart, IsLeapYear, DaysInMonth;
    assert y / 400 == era && U32(y - era * 400) == yoe;
  }

  lemma DayOfYearIsRight(c: Civil, mp: nat)
    requires Valid(c) && mp < 12 && mp == (if c.month > 2 then c.month - 3 else c.month + 9)
    ensures DayOfYear(c.month, c.day) == MonthStart(mp) + c.day - 1 && MonthStart(mp) + c.day - 1 < 368
  {
    assert U32(c.month + (if c.month > 2 then U32(-3) else 9)) == mp;
    assert c.day <= 31 && MonthStart(mp) <= 337;
  }

  lemma DayOfEraIsRight(yoe: nat, doy: nat)
    requires yoe < 400 && doy < 368
    ensures DayOfEra(yoe, doy) == YearStart(yoe) + doy
  {
    assert yoe / 400 == 0;
  }

  lemma CivilOfIsValid(days: int, era: int, yoe: nat, mp: nat, d: nat)
    requires Splits(days, era, yoe, mp, d)
    ensures Valid(CivilOf(era, yoe, mp, d))
  {
    MonthLength(CivilOf(era, yoe, mp, d).year, mp);
    YearLength(era, yoe);
  }

  /** Every day number names a valid date, from which it is recovered. */
  lemma DaysRoundTrip(days: int)
    ensures var c := CivilFromDays(days); Valid(c) && DaysFromCivil(c.year, c.month, c.day) == days
  {
    hide DaysFromCivil, CivilFromDays, YearStart, MonthStart, IsLeapYear;
    var era, yoe, mp, d := CivilSplits(days);
    var c := CivilFromDays(days);
    CivilOfIsValid(days, era, yoe, mp, d);
    var era', yoe', mp' := DaysSplit(c);
    assert mp == mp' && era == era' && yoe == yoe';
  }

  /** Every valid date is recovered from its day number. */
  lemma CivilRoundTrip(c: Civil)
    requires Valid(c)
    ensures CivilFromDays(DaysFromCivil(c.year, c.month, c.day)) == c
  {
    hide DaysFromCivil, CivilFromDays, YearStart, MonthStart, IsLeapYear;
    var days := DaysFromCivil(c.year, c.month, c.day);
    var era, yoe, mp := DaysSplit(c);
    var era', yoe', mp', d' := CivilSplits(days);
    SplitIsUnique(days, era, yoe, mp, c.day, era', yoe', mp', d');
  }

  lemma TomorrowIsValid(c: Civil)
    requires Valid(c)
    ensures Valid(Tomorrow(c))
  {
  }

  /** The next date always has the next day number. */
  lemma TomorrowIsOneMore(c: Civil)
    requires Valid(c)
    ensures var t := Tomorrow(c);
            Valid(t) && DaysFromCivil(t.year, t.month, t.day) == DaysFromCivil(c.year, c.month, c.day) + 1
  {
    var t := Tomorrow(c);
    TomorrowIsValid(c);
    var era, yoe, mp := DaysSplit(c);
    DaysFromParts(c, era, yoe, mp);
    MonthLength(c.year, mp);
    if t.day == c.day + 1 {
      DaysFromParts(t, era, yoe, mp);
    } else if mp < 11 {
      DaysFromParts(t, era, yoe, mp + 1);
    } else {
      LastOfFebruary(c, era, yoe);
      DaysFromParts(t, if yoe < 399 then era else era + 1, if yoe < 399 then yoe + 1 else 0, 0);
      StartsOfEra();
    }
  }

  /** An era year ends with the last day of February. */
  lemma LastOfFebruary(c: Civil, era: int, yoe: nat)
    requires Valid(c) && yoe < 400 && c == CivilOf(era, yoe, 11, c.day) && c.day == DaysInMonth(c.year, c.month)
    ensures YearStart(yoe) + MonthStart(11) + c.day == YearStart(yoe + 1) && MonthStart(0) == 0
  {
    YearLength(era, yoe);
  }

  lemma StartsOfEra()
    ensures YearStart(400) == 146097 && YearStart(0) == 0
  {
  }
}
