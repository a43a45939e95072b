/** The log's seconds-to-calendar arithmetic, against the Gregorian calendar
    (section 3.2.1 of ISO 8601:2004). Seconds are unbounded here; every intermediate
    value of the source fits its 64-bit type. */
module Calendar {

  datatype Date = Date(year: nat, month: nat, day: nat)
  datatype Stamp = Stamp(date: Date, hour: nat, minute: nat, second: nat)

  // ---------- the calendar ----------

  predicate IsLeap(year: nat) {
    year % 4 == 0 && (year % 100 != 0 || year % 400 == 0)
  }

  function DaysInMonth(year: nat, month: nat): nat {
    if month == 2 then if IsLeap(year) then 29 else 28
    else if month in {4, 6, 9, 11} then 30
    else 31
  }

  predicate IsDate(d: Date) {
    1 <= d.month <= 12 && 1 <= d.day <= DaysInMonth(d.year, d.month)
  }

  /** The day after `d`. */
  function Successor(d: Date): Date {
    if d.day < DaysInMonth(d.year, d.month) then d.(day := d.day + 1)
    else if d.month < 12 then Date(d.year, d.month + 1, 1)
    else Date(d.year + 1, 1, 1)
  }

  predicate Earlier(a: Date, b: Date) {
    || a.year < b.year
    || (a.year == b.year && a.month < b.month)
    || (a.year == b.year && a.month == b.month && a.day < b.day)
  }

  // ---------- the arithmetic ----------

  /** A day counted inside a 400-year era whose years start on 1 March. */
  datatype EraDay = EraDay(era: nat, yearOfEra: nat, dayOfYear: nat)

  function EraDayOf(z: nat): (e: EraDay)
    ensures EraDayOk(e) && Position(e) == z
  {
    var era := z / 146097;
    var doe := z % 146097;
    var yoe := (doe - doe / 1460 + doe / 36524 - doe / 146096) / 365;
    YearOfEraBounds(doe);
    EraDay(era, yoe, doe - (365 * yoe + yoe / 4 - yoe / 100))
  }

  function MonthAndDay(doy: nat): (nat, nat)
    requires doy < 366
  {
    var mp := (5 * doy + 2) / 153;
    (if mp < 10 then mp + 3 else mp - 9, doy - (153 * mp + 2) / 5 + 1)
  }

  function CivilOf(e: EraDay): Date
    requires e.dayOfYear < 366
  {
    var (m, d) := MonthAndDay(e.dayOfYear);
    var y := e.yearOfEra + e.era * 400;
    Date(if m <= 2 then y + 1 else y, m, d)
  }

  /** Days since 1 January 1970 to a calendar date. */
  function CivilFromDays(days: nat): Date {
    CivilOf(EraDayOf(days + 719468))
  }

  function StampOf(secs: nat): Stamp {
    var rem := secs % 86400;
    Stamp(CivilFromDays(secs / 86400), rem / 3600, rem % 3600 / 60, rem % 60)
  }

  // ---------- days inside an era ----------

  /** Days of an era before its year `y`. */
  function DaysBefore(y: nat): nat {
    365 * y + y / 4 - y / 100
  }

  function YearLength(y: nat): nat {
    if IsLeap(y + 1) then 366 else 365
  }

  predicate EraDayOk(e: EraDay) {
    e.yearOfEra < 400 && e.dayOfYear < YearLength(e.yearOfEra)
  }

  function Position(e: EraDay): nat {
    e.era * 146097 + DaysBefore(e.yearOfEra) + e.dayOfYear
  }

  lemma YearLengths(y: nat)
    requires y < 400
    ensures DaysBefore(y + 1) + (if y == 399 then 1 else 0) == DaysBefore(y) + YearLength(y)
  {
    NextBy4(y);
    NextBy100(y);
    assert (y + 1) % 400 == 0 <==> y == 399;
  }

  lemma NextBy4(y: nat)
    ensures (y + 1) / 4 == y / 4 + if (y + 1) % 4 == 0 then 1 else 0
  {
  }

  lemma NextBy100(y: nat)
    ensures (y + 1) / 100 == y / 100 + if (y + 1) % 100 == 0 then 1 else 0
  {
  }

  lemma {:induction false} DaysBeforeGrows(y: nat, w: nat)
    requires y < w
    ensures DaysBefore(y) + 365 <= DaysBefore(w)
  {
  }

  /** A day of an era as century, four-year cycle, year of the cycle and day of the year. */
  lemma SplitDay(doe: nat) returns (c: nat, q: nat, k: nat, doy: nat)
    requires doe < 146097
    ensures c < 4 && q < 25 && k < 4
    ensures doe == 36524 * c + 1461 * q + 365 * k + doy
    ensures doy < 365 || (doy == 365 && k == 3 && (q < 24 || c == 3))
  {
    c := if doe / 36524 < 4 then doe / 36524 else 3;
    var inCentury := doe - 36524 * c;
    q := inCentury / 1461;
    var inCycle := inCentury - 1461 * q;
    k := if inCycle / 365 < 4 then inCycle / 365 else 3;
    doy := inCycle - 365 * k;
  }

  /** The closed form of the source finds the year of the split. */
  lemma YearFormula(doe: nat, c: nat, q: nat, k: nat, doy: nat)
    requires c < 4 && q < 25 && k < 4
    requires doe == 36524 * c + 1461 * q + 365 * k + doy < 146097
    requires doy < 365 || (doy == 365 && k == 3 && (q < 24 || c == 3))
    ensures (doe - doe / 1460 + doe / 36524 - doe / 146096) / 365 == 100 * c + 4 * q + k
  {
    var t := 24 * c + q + 365 * k + doy;
    assert doe == 1460 * (25 * c + q) + t;
    assert doe / 1460 == 25 * c + q + t / 1460;
    assert doe / 36524 - doe / 146096 == c;
    assert t / 1460 <= 1 && (doy == 0 ==> t / 1460 == 0) && (doy == 365 ==> t / 1460 == 1);
  }

  lemma YearOfEraBounds(doe: nat)
    requires doe < 146097
    ensures var yoe := (doe - doe / 1460 + doe / 36524 - doe / 146096) / 365;
      0 <= yoe < 400 && DaysBefore(yoe) <= doe < DaysBefore(yoe) + YearLength(yoe)
  {
    var c, q, k, doy := SplitDay(doe);
    YearFormula(doe, c, q, k, doy);
    var y := 100 * c + 4 * q + k;
    assert y / 4 == 25 * c + q && y / 100 == c;
    if doy == 365 {
      assert y + 1 == 100 * c + 4 * (q + 1);
      assert IsLeap(y + 1) by {
        if q == 24 {
          assert y + 1 == 400;
        } else {
          assert (y + 1) % 100 == 4 * (q + 1);
        }
      }
    }
  }

  /** A position is reached by one era day only. */
  lemma PositionIsInjective(a: EraDay, b: EraDay)
    requires EraDayOk(a) && EraDayOk(b) && Position(a) == Position(b)
    ensures a == b
  {
    InsideEra(a);
    InsideEra(b);
    if a.yearOfEra < b.yearOfEra {
      YearEndsBefore(a.yearOfEra, b.yearOfEra);
    } else if b.yearOfEra < a.yearOfEra {
      YearEndsBefore(b.yearOfEra, a.yearOfEra);
    }
  }

  lemma InsideEra(e: EraDay)
    requires EraDayOk(e)
    ensures DaysBefore(e.yearOfEra) + e.dayOfYear < 146097
    ensures Position(e) / 146097 == e.era
  {
  }

  lemma YearEndsBefore(y: nat, w: nat)
    requires y < w < 400
    ensures DaysBefore(y) + YearLength(y) <= DaysBefore(w)
  {
    YearLengths(y);
    if y + 1 < w {
      DaysBeforeGrows(y + 1, w);
    }
  }

  // ---------- the day after ----------

  function NextEraDay(e: EraDay): EraDay
    requires EraDayOk(e)
  {
    if e.dayOfYear + 1 < YearLength(e.yearOfEra) then e.(dayOfYear := e.dayOfYear + 1)
    else if e.yearOfEra < 399 then EraDay(e.era, e.yearOfEra + 1, 0)
    else EraDay(e.era + 1, 0, 0)
  }

  lemma NextPosition(e: EraDay)
    requires EraDayOk(e)
    ensures EraDayOk(NextEraDay(e)) && Position(NextEraDay(e)) == Position(e) + 1
  {
    YearLengths(e.yearOfEra);
  }

  lemma EraDayStep(z: nat)
    ensures EraDayOf(z + 1) == NextEraDay(EraDayOf(z))
  {
    hide EraDayOf;
    NextPosition(EraDayOf(z));
    PositionIsInjective(EraDayOf(z + 1), NextEraDay(EraDayOf(z)));
  }

  /** The civil date of the next era day is the calendar's next day. */
  lemma CivilStep(e: EraDay)
    requires EraDayOk(e)
    ensures IsDate(CivilOf(e))
    ensures CivilOf(NextEraDay(e)) == Successor(CivilOf(e))
  {
    LeapRepeats(e.yearOfEra + 1, e.era);
    MonthStep(e.dayOfYear);
  }

  /** The calendar repeats every 400 years. */
  lemma {:induction false} LeapRepeats(y: nat, eras: nat)
    ensures IsLeap(y) <==> IsLeap(y + eras * 400)
  {
    hide IsLeap;
    if eras > 0 {
      LeapRepeats(y, eras - 1);
      LeapAfterEra(y + (eras - 1) * 400);
      assert y + eras * 400 == y + (eras - 1) * 400 + 400;
    }
  }

  lemma LeapAfterEra(y: nat)
    ensures IsLeap(y) <==> IsLeap(y + 400)
  {
    After400By4(y);
    After400By100(y);
    After400By400(y);
  }

  lemma After400By4(y: nat)
    ensures (y + 400) % 4 == y % 4
  {
    assert (y + 400) / 4 == y / 4 + 100;
  }

  lemma After400By100(y: nat)
    ensures (y + 400) % 100 == y % 100
  {
    assert (y + 400) / 100 == y / 100 + 4;
  }

  lemma After400By400(y: nat)
    ensures (y + 400) % 400 == y % 400
  {
    assert (y + 400) / 400 == y / 400 + 1;
  }

  /** The day of a year that starts on 1 March on which its month `mp` begins. */
  function MonthStart(mp: nat): nat
    requires mp <= 12
  {
    [0, 31, 61, 92, 122, 153, 184, 214, 245, 275, 306, 337, 367][mp]
  }

  lemma MonthStarts(mp: nat)
    requires mp < 12
    ensures (153 * mp + 2) / 5 == MonthStart(mp)
    ensures 153 * mp <= 5 * MonthStart(mp) + 2
    ensures 5 * MonthStart(mp + 1) <= 153 * mp + 155
    ensures MonthStart(mp) + 28 <= MonthStart(mp + 1)
  {
  }

  lemma InMonth(doy: nat, mp: nat)
    requires mp < 12 && doy < 366 && MonthStart(mp) <= doy < MonthStart(mp + 1)
    ensures MonthAndDay(doy) == (if mp < 10 then mp + 3 else mp - 9, doy - MonthStart(mp) + 1)
  {
    hide MonthStart;
    MonthStarts(mp);
    assert (5 * doy + 2) / 153 == mp;
  }

  lemma MonthOf(doy: nat) returns (mp: nat)
    requires doy < 366
    ensures mp < 12 && MonthStart(mp) <= doy < MonthStart(mp + 1)
  {
    mp := 0;
    while mp < 11 && doy >= MonthStart(mp + 1)
      invariant mp < 12 && MonthStart(mp) <= doy
    {
      mp := mp + 1;
    }
  }

  lemma MonthLengths(mp: nat)
    requires mp < 12
    ensures var m := if mp < 10 then mp + 3 else mp - 9;
      m != 2 ==> MonthStart(mp + 1) - MonthStart(mp) == if m in {4, 6, 9, 11} then 30 else 31
    ensures mp == 10 ==> MonthStart(mp) == 306
    ensures mp == 11 ==> MonthStart(mp) == 337
    ensures mp < 10 ==> MonthStart(mp + 1) <= 306
  {
  }

  /** Months of a year that starts on 1 March. */
  lemma MonthStep(doy: nat)
    requires doy < 366
    ensures var (m, d) := MonthAndDay(doy);
      && 1 <= m <= 12 && 1 <= d
      && (m == 2 ==> d <= 29 && doy == 336 + d)
      && (m in {4, 6, 9, 11} ==> d <= 30)
      && d <= 31
      && (m == 1 <==> 306 <= doy < 337) && (m == 2 <==> 337 <= doy)
      && (doy + 1 < 366 ==>
            var (m', d') := MonthAndDay(doy + 1);
            if m != 2 && d == (if m in {4, 6, 9, 11} then 30 else 31)
            then d' == 1 && m' == (if m == 12 then 1 else m + 1)
            else m' == m && d' == d + 1)
  {
    hide MonthAndDay, MonthStart;
    var mp := MonthOf(doy);
    InMonth(doy, mp);
    MonthLengths(mp);
    if doy + 1 < 366 {
      if doy + 1 < MonthStart(mp + 1) {
        InMonth(doy + 1, mp);
      } else {
        LastMonth(doy, mp);
        MonthStarts(mp + 1);
        InMonth(doy + 1, mp + 1);
      }
    }
  }

  lemma LastMonth(doy: nat, mp: nat)
    requires mp < 12 && doy + 1 < 366 && MonthStart(mp) <= doy && doy + 1 >= MonthStart(mp + 1)
    ensures mp < 11
  {
  }

  // ---------- the promises of the log stamp ----------

  /** Every day count gives a real calendar date, and the next count gives the next day. */
  lemma CivilIsCalendar(days: nat)
    ensures IsDate(CivilFromDays(days))
    ensures CivilFromDays(days + 1) == Successor(CivilFromDays(days))
  {
    EraDayStep(days + 719468);
    CivilStep(EraDayOf(days + 719468));
  }

  /** The usual inverse: days since 1 January 1970 of a civil date. */
  function DaysFromCivil(d: Date): int {
    var y := if d.month <= 2 then d.year - 1 else d.year;
    var era := y / 400;
    var yoe := y % 400;
    var mp := if d.month > 2 then d.month - 3 else d.month + 9;
    era * 146097 + 365 * yoe + yoe / 4 - yoe / 100 + (153 * mp + 2) / 5 + d.day - 1 - 719468
  }

  lemma CivilInverts(e: EraDay)
    requires EraDayOk(e)
    ensures DaysFromCivil(CivilOf(e)) == Position(e) - 719468
  {
    var y := e.yearOfEra + e.era * 400;
    assert y / 400 == e.era && y % 400 == e.yearOfEra;
  }

  lemma DaysFromCivilInverts(days: nat)
    ensures DaysFromCivil(CivilFromDays(days)) == days
  {
    CivilInverts(EraDayOf(days + 719468));
  }

  /** 1 January 1970 is day 0 and no other day. */
  lemma EpochIsDayZero(days: nat)
    ensures CivilFromDays(days) == Date(1970, 1, 1) <==> days == 0
  {
    hide EraDayOf, DaysFromCivil, CivilOf;
    DaysFromCivilInverts(days);
    EpochDays();
    if days == 0 {
      EpochDate(EraDayOf(days + 719468));
    }
  }

  lemma EpochDays()
    ensures DaysFromCivil(Date(1970, 1, 1)) == 0
  {
  }

  lemma EpochDate(e: EraDay)
    requires EraDayOk(e) && Position(e) == 719468
    ensures CivilOf(e) == Date(1970, 1, 1)
  {
    PositionIsInjective(e, EraDay(4, 369, 306));
  }

  lemma {:induction false} LaterIsLater(a: nat, b: nat)
    requires a < b
    ensures Earlier(CivilFromDays(a), CivilFromDays(b))
    decreases b
  {
    hide CivilFromDays;
    CivilIsCalendar(b - 1);
    if a < b - 1 {
      LaterIsLater(a, b - 1);
    }
  }

  predicate StampEarlier(a: Stamp, b: Stamp) {
    || Earlier(a.date, b.date)
    || (a.date == b.date &&
          (a.hour < b.hour || (a.hour == b.hour &&
             (a.minute < b.minute || (a.minute == b.minute && a.second < b.second)))))
  }

  /** Stamps are real times of day, determine the second they came from, and sort as time does. */
  lemma StampsSortAsTime(a: nat, b: nat)
    ensures var s := StampOf(a);
      && IsDate(s.date) && s.hour < 24 && s.minute < 60 && s.second < 60
      && a == 86400 * DaysFromCivil(s.date) + 3600 * s.hour + 60 * s.minute + s.second
    ensures a < b <==> StampEarlier(StampOf(a), StampOf(b))
  {
    hide CivilFromDays, DaysFromCivil, IsDate;
    CivilIsCalendar(a / 86400);
    DaysFromCivilInverts(a / 86400);
    DaysFromCivilInverts(b / 86400);
    if a / 86400 < b / 86400 {
      LaterIsLater(a / 86400, b / 86400);
    } else if b / 86400 < a / 86400 {
      LaterIsLater(b / 86400, a / 86400);
    }
  }
}
