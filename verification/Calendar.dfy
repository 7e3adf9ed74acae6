/** `micro_time`: from seconds since the epoch to a Gregorian date and a time of day. */
module Calendar {
  datatype Date = Date(year: int, month: int, day: int)

  datatype Stamp = Stamp(date: Date, hour: nat, minute: nat, second: nat)

  // ---- the calendar, from its rules ---------------------------------------------------------------

  predicate IsLeap(y: int) {
    y % 4 == 0 && (y % 100 != 0 || y % 400 == 0)
  }

  function DaysInMonth(y: int, m: int): int {
    if m == 2 then (if IsLeap(y) then 29 else 28)
    else if m == 4 || m == 6 || m == 9 || m == 11 then 30
    else 31
  }

  predicate ValidDate(d: Date) {
    1 <= d.month <= 12 && 1 <= d.day <= DaysInMonth(d.year, d.month)
  }

  function NextDate(d: Date): Date {
    if d.day < DaysInMonth(d.year, d.month) then d.(day := d.day + 1)
    else if d.month < 12 then Date(d.year, d.month + 1, 1)
    else Date(d.year + 1, 1, 1)
  }

  /** The date `n` days after 1 January 1970. */
  function DateAfter(n: nat): Date {
    if n == 0 then Date(1970, 1, 1) else NextDate(DateAfter(n - 1))
  }

  // ---- the algorithm ------------------------------------------------------------------------------

  function YearOfEra(doe: int): int {
    (doe - doe / 1460 + doe / 36524 - doe / 146096) / 365
  }

  /** The day an era's year starts on, years running from March. */
  function YearStart(yoe: int): int {
    365 * yoe + yoe / 4 - yoe / 100
  }

  function DateOf(era: int, yoe: int, doy: int): Date {
    var mp := (5 * doy + 2) / 153;
    var day := doy - (153 * mp + 2) / 5 + 1;
    var month := if mp < 10 then mp + 3 else mp - 9;
    Date(yoe + era * 400 + (if month <= 2 then 1 else 0), month, day)
  }

  function CivilOfDay(z: int): Date {
    var era, doe := z / 146097, z % 146097;
    var yoe := YearOfEra(doe);
    DateOf(era, yoe, doe - YearStart(yoe))
  }

  function CivilFromDays(n: nat): Date {
    CivilOfDay(n + 719468)
  }

  function MicroTime(secs: nat): Stamp {
    Stamp(CivilFromDays(secs / 86400), secs % 86400 / 3600, secs % 3600 / 60, secs % 60)
  }

  // ---- days of a 400-year era ---------------------------------------------------------------------

  /** A day of the era as century, four-year cycle, year and day, years running from March. */
  datatype Place = Place(c: int, q: int, s: int, d: int) {
    predicate Valid() {
      0 <= c <= 3 && 0 <= q <= 24 && 0 <= s <= 3 && 0 <= d < YearLength()
    }

    /** A March year is long when the February in it is: in the next calendar year. */
    function YearLength(): int {
      if s == 3 && (q < 24 || c == 3) then 366 else 365
    }

    function Year(): int { 100 * c + 4 * q + s }
    function DayOfEra(): int { 36524 * c + 1461 * q + 365 * s + d }
  }

  function PlaceOf(doe: int): (p: Place)
    requires 0 <= doe < 146097
    ensures p.Valid() && p.DayOfEra() == doe
  {
    var c := if doe == 146096 then 3 else doe / 36524;
    var r := doe - 36524 * c;
    var q := r / 1461;
    var t := r - 1461 * q;
    var s := if t == 1460 then 3 else t / 365;
    Place(c, q, s, t - 365 * s)
  }

  lemma YearStartOf(p: Place)
    requires p.Valid()
    ensures YearStart(p.Year()) == p.DayOfEra() - p.d
  {
    assert p.Year() / 4 == 25 * p.c + p.q;
    assert p.Year() / 100 == p.c;
  }

  /** The formula finds the year the day lies in. */
  lemma YearOfEraIsRight(p: Place)
    requires p.Valid()
    ensures YearOfEra(p.DayOfEra()) == p.Year()
  {
    var doe := p.DayOfEra();
    var rem := 24 * p.c + p.q + 365 * p.s + p.d;
    assert doe == 1460 * (25 * p.c + p.q) + rem;
    var e := if rem >= 1460 then 1 else 0;
    assert doe / 1460 == 25 * p.c + p.q + e;
    assert doe / 36524 - doe / 146096 == p.c by {
      if doe < 146096 {
        assert 0 <= doe - 36524 * p.c < 36524;
      }
    }
    assert doe - doe / 1460 + doe / 36524 - doe / 146096 == 365 * p.Year() + (p.d - e);
  }

  lemma CivilOfPlace(era: int, p: Place)
    requires p.Valid()
    ensures 0 <= p.DayOfEra() < 146097
    ensures CivilOfDay(146097 * era + p.DayOfEra()) == DateOf(era, p.Year(), p.d)
  {
    YearOfEraIsRight(p);
    YearStartOf(p);
    assert (146097 * era + p.DayOfEra()) / 146097 == era;
  }

  lemma LeapOfPlace(era: int, p: Place)
    requires p.Valid()
    ensures IsLeap(400 * era + p.Year() + 1) <==> p.YearLength() == 366
  {
    var y := 400 * era + p.Year() + 1;
    assert y == 4 * (100 * era + 25 * p.c + p.q) + p.s + 1;
    assert y % 4 == (p.s + 1) % 4;
    assert y == 100 * (4 * era + p.c) + 4 * p.q + p.s + 1;
    assert y % 100 == 0 <==> p.s == 3 && p.q == 24;
    assert y == 400 * era + p.Year() + 1 && 1 <= p.Year() + 1 <= 400;
    assert y % 400 == 0 <==> p.Year() + 1 == 400;
  }

  /** The day of a March year its month `mp` starts on. */
  function MonthStart(mp: int): int {
    (153 * mp + 2) / 5
  }

  lemma MonthOf(doy: int, mp: int)
    requires 0 <= mp <= 11 && MonthStart(mp) <= doy < MonthStart(mp + 1)
    ensures (5 * doy + 2) / 153 == mp
  {
  }

  lemma MonthLies(doy: int)
    requires 0 <= doy <= 365
    ensures var mp := (5 * doy + 2) / 153; 0 <= mp <= 11 && MonthStart(mp) <= doy < MonthStart(mp + 1)
  {
  }

  /** The months run as long as the calendar says, February being cut short by the year's end. */
  lemma MonthLengths(y: int, mp: int)
    requires 0 <= mp < 11
    ensures DaysInMonth(y, if mp < 10 then mp + 3 else mp - 9) == MonthStart(mp + 1) - MonthStart(mp)
  {
    if mp <= 5 {
      assert mp == 0 || mp == 1 || mp == 2 || mp == 3 || mp == 4 || mp == 5;
    } else {
      assert mp == 6 || mp == 7 || mp == 8 || mp == 9 || mp == 10;
    }
  }

  /** Within a March year, the next day is the next date. */
  lemma NextDayOfYear(era: int, yoe: int, doy: int)
    requires 0 <= doy < 365 && (doy == 364 ==> IsLeap(400 * era + yoe + 1))
    ensures DateOf(era, yoe, doy + 1) == NextDate(DateOf(era, yoe, doy))
  {
    var mp := (5 * doy + 2) / 153;
    MonthLies(doy);
    if mp < 11 {
      MonthLengths(DateOf(era, yoe, doy).year, mp);
    }
    if doy + 1 < MonthStart(mp + 1) {
      MonthOf(doy + 1, mp);
    } else {
      MonthOf(doy + 1, mp + 1);
    }
  }

  /** From the last day of February to the first of March. */
  lemma NextYear(era: int, yoe: int, doy: int, era2: int, yoe2: int)
    requires 400 * era2 + yoe2 == 400 * era + yoe + 1
    requires doy == if IsLeap(400 * era + yoe + 1) then 365 else 364
    ensures DateOf(era2, yoe2, 0) == NextDate(DateOf(era, yoe, doy))
  {
  }

  /** The next day of the era, unless it is the last. */
  function NextPlace(p: Place): (r: Place)
    requires p.Valid() && p != Place(3, 24, 3, 365)
    ensures r.Valid() && r.DayOfEra() == p.DayOfEra() + 1
    ensures if p.d + 1 < p.YearLength() then r == p.(d := p.d + 1) else r.d == 0 && r.Year() == p.Year() + 1
  {
    if p.d + 1 < p.YearLength() then p.(d := p.d + 1)
    else if p.s < 3 then Place(p.c, p.q, p.s + 1, 0)
    else if p.q < 24 then Place(p.c, p.q + 1, 0, 0)
    else Place(p.c + 1, 0, 0, 0)
  }

  lemma SuccessorInEra(era: int, p: Place)
    requires p.Valid() && p != Place(3, 24, 3, 365)
    ensures DateOf(era, NextPlace(p).Year(), NextPlace(p).d) == NextDate(DateOf(era, p.Year(), p.d))
  {
    LeapOfPlace(era, p);
    if p.d + 1 < p.YearLength() {
      NextDayOfYear(era, p.Year(), p.d);
    } else {
      NextYear(era, p.Year(), p.d, era, NextPlace(p).Year());
    }
  }

  lemma SuccessorAt(era: int, p: Place)
    requires p.Valid()
    ensures CivilOfDay(146097 * era + p.DayOfEra() + 1) == NextDate(DateOf(era, p.Year(), p.d))
  {
    if p != Place(3, 24, 3, 365) {
      SuccessorInEra(era, p);
      CivilOfPlace(era, NextPlace(p));
    } else {
      var first := Place(0, 0, 0, 0);
      LeapOfPlace(era, p);
      NextYear(era, 399, 365, era + 1, 0);
      CivilOfPlace(era + 1, first);
      assert 146097 * (era + 1) + first.DayOfEra() == 146097 * era + p.DayOfEra() + 1;
    }
  }

  lemma Locate(z: int) returns (era: int, p: Place)
    ensures p.Valid() && z == 146097 * era + p.DayOfEra()
  {
    era, p := z / 146097, PlaceOf(z % 146097);
  }

  /** Consecutive days map to consecutive dates. */
  lemma Successor(z: int)
    ensures CivilOfDay(z + 1) == NextDate(CivilOfDay(z))
  {
    var era, p := Locate(z);
    CivilOfPlace(era, p);
    SuccessorAt(era, p);
  }

  lemma Epoch()
    ensures CivilFromDays(0) == Date(1970, 1, 1)
  {
    var p := Place(3, 17, 1, 306);
    assert 719468 == 146097 * 4 + p.DayOfEra();
    CivilOfPlace(4, p);
  }

  // ---- the result -----------------------------------------------------------------------------------

  lemma {:induction false} DatesAreValid(n: nat)
    ensures ValidDate(DateAfter(n))
  {
    if n > 0 {
      DatesAreValid(n - 1);
    }
  }

  predicate Before(a: Date, b: Date) {
    a.year < b.year || (a.year == b.year && (a.month < b.month || (a.month == b.month && a.day < b.day)))
  }

  lemma {:induction false} DatesIncrease(m: nat, n: nat)
    requires m < n
    ensures Before(DateAfter(m), DateAfter(n))
  {
    DatesAreValid(n - 1);
    if m < n - 1 {
      DatesIncrease(m, n - 1);
    }
  }

  /** The algorithm names the date `n` days after the epoch, a valid one, and no other day has that date. */
  lemma {:induction false} CivilIsRight(n: nat)
    ensures CivilFromDays(n) == DateAfter(n) && ValidDate(CivilFromDays(n))
  {
    if n == 0 {
      Epoch();
    } else {
      CivilIsRight(n - 1);
      Successor(n - 1 + 719468);
    }
    DatesAreValid(n);
  }

  lemma TimeOfDay(secs: nat)
    ensures secs % 86400 / 3600 < 24
    ensures secs % 86400 == 3600 * (secs % 86400 / 3600) + 60 * (secs % 3600 / 60) + secs % 60
  {
    var d, t := secs / 86400, secs % 86400;
    var h, r := t / 3600, t % 3600;
    assert secs == 3600 * (24 * d + h) + r;
    assert secs % 3600 == r;
    assert secs == 60 * (1440 * d + 60 * h + r / 60) + r % 60;
    assert secs % 60 == r % 60;
  }

  /** The stamp is valid and counts the seconds exactly. */
  lemma MicroTimeIsRight(secs: nat)
    ensures var t := MicroTime(secs);
            && t.date == DateAfter(secs / 86400) && ValidDate(t.date)
            && t.hour < 24 && t.minute < 60 && t.second < 60
            && secs == 86400 * (secs / 86400) + 3600 * t.hour + 60 * t.minute + t.second
  {
    CivilIsRight(secs / 86400);
    TimeOfDay(secs);
  }

  predicate StampBefore(a: Stamp, b: Stamp) {
    Before(a.date, b.date) ||
    (a.date == b.date && 3600 * a.hour + 60 * a.minute + a.second < 3600 * b.hour + 60 * b.minute + b.second)
  }

  /** `t` is the stamp of second `r` of day `d`. */
  predicate StampOf(t: Stamp, d: nat, r: nat) {
    t.date == DateAfter(d) && r == 3600 * t.hour + 60 * t.minute + t.second
  }

  lemma StampsOrder(s: Stamp, t: Stamp, c: nat, p: nat, d: nat, r: nat)
    requires StampOf(s, c, p) && StampOf(t, d, r) && (c < d || (c == d && p < r))
    ensures StampBefore(s, t)
  {
    if c < d {
      DatesIncrease(c, d);
    }
  }

  lemma MicroTimeStamps(secs: nat)
    ensures StampOf(MicroTime(secs), secs / 86400, secs % 86400)
  {
    MicroTimeIsRight(secs);
  }

  /** So later seconds get later stamps: the stamps order as the instants do, and no two share one. */
  lemma MicroTimeIncreases(a: nat, b: nat)
    requires a < b
    ensures StampBefore(MicroTime(a), MicroTime(b))
  {
    MicroTimeStamps(a);
    MicroTimeStamps(b);
    StampsOrder(MicroTime(a), MicroTime(b), a / 86400, a % 86400, b / 86400, b % 86400);
  }
}
