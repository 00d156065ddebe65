/** Date serials: whole days since 1899-12-30 plus the time of day as a fraction. */
module DateLib {
  import opened Calendar

  function WholeDays(serial: real): int { serial.Floor }

  function TimeOfDay(serial: real): real { serial - serial.Floor as real }

  function CivilOfSerial(serial: real): Civil { CivilFromDays(WholeDays(serial) + EPOCH) }

  function DateSerial(year: int, month: int, day: int): real {
    (DaysFromCivil(year, U32(month), U32(day)) - EPOCH) as real
  }

  /** 1 is Sunday; the remainder is C++'s, so it may be negative. */
  function Weekday(serial: real): int {
    var z := WholeDays(serial) + EPOCH;
    var w := Rem(Rem(z, 7) + 7 + 4, 7);
    w + 1
  }

  /** `static_cast<std::int64_t>` of a double. */
  function Trunc(x: real): int { if x >= 0.0 then x.Floor else -((-x).Floor) }

  /** Month arithmetic as written, on the truncating division: the year and the
      1-based month of a month count. */
  function YearAndMonth(totalMonths: int): (int, nat) {
    var newYear := Quot(totalMonths, 12);
    var newMonth := U32(Rem(totalMonths, 12));
    if totalMonths < 0 && newMonth != 0 then (newYear - 1, U32(U32(newMonth + 12) + 1))
    else (newYear, U32(newMonth + 1))
  }

  function MoveMonths(serial: real, months: int): real {
    var c := CivilOfSerial(serial);
    var totalMonths := c.year * 12 + (c.month - 1) + months;
    var (newYear, newMonth) := YearAndMonth(totalMonths);
    MonthInRange(totalMonths);
    var maxDay := DaysInMonth(newYear, newMonth);
    var newDay := if c.day > maxDay then maxDay else c.day;
    (DaysFromCivil(newYear, newMonth, newDay) - EPOCH) as real + TimeOfDay(serial)
  }

  function DateAdd(code: string, number: real, serial: real): real {
    if code == "yyyy" then MoveMonths(serial, Trunc(number) * 12)
    else if code == "m" then MoveMonths(serial, Trunc(number))
    else if code == "d" then serial + number
    else if code == "h" then serial + number / 24.0
    else if code == "n" then serial + number / 1440.0
    else if code == "s" then serial + number / 86400.0
    else serial
  }

  function DateDiff(code: string, start: real, end: real): real {
    var (s, e) := (CivilOfSerial(start), CivilOfSerial(end));
    if code == "yyyy" then (e.year - s.year) as real
    else if code == "m" then (e.year * 12 + e.month - (s.year * 12 + s.month)) as real
    else if code == "d" then end - start
    else if code == "h" then (end - start) * 24.0
    else if code == "n" then (end - start) * 1440.0
    else if code == "s" then (end - start) * 86400.0
    else end - start
  }

  /** The wrap through `unsigned` and the correction of the truncating division
      amount to flooring division. */
  lemma MonthInRange(totalMonths: int)
    ensures YearAndMonth(totalMonths) == (totalMonths / 12, totalMonths % 12 + 1)
  {
    if totalMonths < 0 {
      var q := (-totalMonths) / 12;
      var r := (-totalMonths) % 12;
      assert Rem(totalMonths, 12) == -r;
      if r == 0 {
        QuotientUnique(totalMonths, 12, -q, 0);
      } else {
        QuotientUnique(totalMonths, 12, -q - 1, 12 - r);
        WrapsBack(r);
      }
    }
  }

  lemma WrapsBack(r: int)
    requires 0 < r < 12
    ensures U32(-r) == TWO32 - r && U32(U32(-r) + 12) == 12 - r && U32(13 - r) == 13 - r
  {
  }

  function MonthIndex(c: Civil): int { c.year * 12 + c.month - 1 }

  function Min(a: nat, b: nat): nat { if a < b then a else b }

  /** The date `months` later, with the day cut to the length of its month. */
  function Shifted(c: Civil, months: int): Civil {
    var t := MonthIndex(c) + months;
    Civil(t / 12, t % 12 + 1, Min(c.day, DaysInMonth(t / 12, t % 12 + 1)))
  }

  lemma FloorOfSum(days: int, time: real)
    requires 0.0 <= time < 1.0
    ensures WholeDays(days as real + time) == days && TimeOfDay(days as real + time) == time
  {
  }

  /** Moving by months lands on the date that many months later, clamped, and
      keeps the time of day. */
  lemma MoveMonthsLands(serial: real, months: int)
    ensures CivilOfSerial(MoveMonths(serial, months)) == Shifted(CivilOfSerial(serial), months)
    ensures TimeOfDay(MoveMonths(serial, months)) == TimeOfDay(serial)
    ensures MonthIndex(CivilOfSerial(MoveMonths(serial, months))) == MonthIndex(CivilOfSerial(serial)) + months
  {
    hide DaysFromCivil, CivilFromDays;
    DaysRoundTrip(WholeDays(serial) + EPOCH);
    var c := CivilOfSerial(serial);
    var to := Shifted(c, months);
    MonthInRange(MonthIndex(c) + months);
    CivilRoundTrip(to);
    FloorOfSum(DaysFromCivil(to.year, to.month, to.day) - EPOCH, TimeOfDay(serial));
  }

  lemma TruncOfInteger(n: int)
    ensures Trunc(n as real) == n
  {
    if n < 0 { assert -(n as real) == (-n) as real; }
  }

  lemma YearsApart(a: Civil, b: Civil, n: int)
    requires Valid(a) && Valid(b) && MonthIndex(b) == MonthIndex(a) + 12 * n
    ensures b.year == a.year + n
  {
  }

  /** DateDiff measures exactly what DateAdd added, for every unit. */
  lemma DiffUndoesAdd(code: string, n: int, serial: real)
    requires code == "yyyy" || code == "m" || code == "d" || code == "h" || code == "n" || code == "s"
    ensures DateDiff(code, serial, DateAdd(code, n as real, serial)) == n as real
  {
    hide DaysFromCivil, CivilFromDays;
    TruncOfInteger(n);
    var moved := DateAdd(code, n as real, serial);
    if code == "yyyy" {
      MoveMonthsLands(serial, n * 12);
      DaysRoundTrip(WholeDays(serial) + EPOCH);
      DaysRoundTrip(WholeDays(moved) + EPOCH);
      YearsApart(CivilOfSerial(serial), CivilOfSerial(moved), n);
    } else if code == "m" {
      MoveMonthsLands(serial, n);
    }
  }

  /** Main result on DateDiff, for all valid dates and times of day: years and
      months are counted by the boundaries crossed, not by what has elapsed; each
      other unit measures what, added to the start, gives the end. */
  lemma DiffMeasures(a: Civil, t: real, b: Civil, u: real)
    requires Valid(a) && Valid(b) && 0.0 <= t < 1.0 && 0.0 <= u < 1.0
    ensures
      var (x, y) := (DateSerial(a.year, a.month, a.day) + t, DateSerial(b.year, b.month, b.day) + u);
      && DateDiff("yyyy", x, y) == (b.year - a.year) as real
      && DateDiff("m", x, y) == (12 * (b.year - a.year) + (b.month as int - a.month as int)) as real
      && x + DateDiff("d", x, y) == y
      && x + DateDiff("h", x, y) / 24.0 == y
      && x + DateDiff("n", x, y) / (24.0 * 60.0) == y
      && x + DateDiff("s", x, y) / (24.0 * 60.0 * 60.0) == y
  {
    hide DaysFromCivil, CivilFromDays, DateSerial;
    SerialRoundTrip(a, t);
    SerialRoundTrip(b, u);
  }

  /** A unit that is none of the six counts days, and adds nothing. */
  lemma OtherUnits(code: string, number: real, x: real, y: real)
    requires code !in {"yyyy", "m", "d", "h", "n", "s"}
    ensures x + DateDiff(code, x, y) == y && DateAdd(code, number, x) == x
  {
  }

  /** Truncation keeps the sign and the whole part. */
  lemma TruncIsWholePart(x: real)
    ensures x >= 0.0 ==> 0.0 <= Trunc(x) as real <= x < Trunc(x) as real + 1.0
    ensures x <= 0.0 ==> Trunc(x) as real - 1.0 < x <= Trunc(x) as real <= 0.0
  {
  }

  /** What DateAdd does with any number: fractions of a year or a month are dropped
      toward zero, and twelve months are a year; of the other units, fractions
      count, and a day is 24 hours of 60 minutes of 60 seconds. */
  lemma AddTakes(n: int, number: real, serial: real)
    requires (number >= 0.0 && 0.0 <= n as real <= number < (n + 1) as real)
          || (number < 0.0 && (n - 1) as real < number <= n as real <= 0.0)
    ensures
      var (year, month) := (DateAdd("yyyy", number, serial), DateAdd("m", number, serial));
      && CivilOfSerial(year) == Shifted(CivilOfSerial(serial), 12 * n) && TimeOfDay(year) == TimeOfDay(serial)
      && CivilOfSerial(month) == Shifted(CivilOfSerial(serial), n) && TimeOfDay(month) == TimeOfDay(serial)
    ensures DateAdd("d", number, serial) - serial == number
    ensures DateAdd("h", 24.0 * number, serial) - serial == number
    ensures DateAdd("n", 24.0 * 60.0 * number, serial) - serial == number
    ensures DateAdd("s", 24.0 * 60.0 * 60.0 * number, serial) - serial == number
  {
    hide DaysFromCivil, CivilFromDays, MoveMonths, CivilOfSerial, Shifted, TimeOfDay;
    TruncIsWholePart(number);
    assert Trunc(number) == n;
    MoveMonthsLands(serial, 12 * n);
    MoveMonthsLands(serial, n);
  }

  /** Going back by as many months restores the serial exactly when the day did
      not have to be cut. */
  lemma MonthsThereAndBack(n: int, serial: real)
    ensures
      var c := CivilOfSerial(serial);
      var t := MonthIndex(c) + n;
      DateAdd("m", (-n) as real, DateAdd("m", n as real, serial)) == serial
      <==> c.day <= DaysInMonth(t / 12, t % 12 + 1)
  {
    hide DaysFromCivil, CivilFromDays, MoveMonths;
    TruncOfInteger(n);
    TruncOfInteger(-n);
    var c := CivilOfSerial(serial);
    var there := MoveMonths(serial, n);
    var back := MoveMonths(there, -n);
    MoveMonthsLands(serial, n);
    MoveMonthsLands(there, -n);
    DaysRoundTrip(WholeDays(serial) + EPOCH);
    DaysRoundTrip(WholeDays(back) + EPOCH);
    ShiftBack(c, n);
    assert back == WholeDays(back) as real + TimeOfDay(back);
  }

  lemma ShiftBack(c: Civil, n: int)
    requires Valid(c)
    ensures Shifted(Shifted(c, n), -n) == c
       <==> c.day <= DaysInMonth((MonthIndex(c) + n) / 12, (MonthIndex(c) + n) % 12 + 1)
  {
    var d := Shifted(Shifted(c, n), -n);
    assert MonthIndex(Shifted(c, n)) == MonthIndex(c) + n;
    SameMonth(c, d.(day := 1));
  }

  lemma SameMonth(a: Civil, b: Civil)
    requires Valid(a) && 1 <= b.month <= 12 && MonthIndex(a) == MonthIndex(b)
    ensures a.year == b.year && a.month == b.month
  {
  }

  /** A serial built from a valid date and a time of day reads back as that date. */
  lemma SerialRoundTrip(c: Civil, time: real)
    requires Valid(c) && 0.0 <= time < 1.0
    ensures CivilOfSerial(DateSerial(c.year, c.month, c.day) + time) == c
  {
    hide DaysFromCivil, CivilFromDays;
    CivilRoundTrip(c);
    FloorOfSum(DaysFromCivil(c.year, c.month, c.day) - EPOCH, time);
  }

  /** The weekday advances by one each day, before 1970 as well, from a Thursday
      on 1970-01-01. */
  lemma WeekdayCycles(serial: real)
    ensures 1 <= Weekday(serial) <= 7
    ensures Weekday(serial + 1.0) == if Weekday(serial) == 7 then 1 else Weekday(serial) + 1
    ensures Weekday(DateSerial(1970, 1, 1)) == 5
  {
    hide DaysFromCivil, CivilFromDays, Rem;
    var z := WholeDays(serial) + EPOCH;
    assert WholeDays(serial + 1.0) + EPOCH == z + 1;
    WeekdayByFloor(z);
    WeekdayByFloor(z + 1);
    WeekdayByFloor(0);
    EpochIsRight();
    FloorOfSum(-EPOCH, 0.0);
  }

  lemma WeekdayByFloor(z: int)
    ensures Rem(Rem(z, 7) + 7 + 4, 7) == (z + 4) % 7
  {
  }
}
