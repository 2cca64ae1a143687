/**
 * The two hand-written calendar algorithms: `rfc3339_utc`, which prints a Unix
 * second, and `parse_rfc3339_seconds`, which reads one back.
 *
 * Texts are sequences of bytes, one `char` per byte.
 */
module Calendar {
  import opened Wrappers
  import Numbers

  // ---------------------------------------------------------------------
  // Dates
  // ---------------------------------------------------------------------

  datatype Civil = Civil(year: int, month: int, day: int)

  predicate IsLeap(year: int) {
    year % 4 == 0 && (year % 100 != 0 || year % 400 == 0)
  }

  function DaysInMonth(year: int, month: int): int {
    if month in {1, 3, 5, 7, 8, 10, 12} then 31
    else if month in {4, 6, 9, 11} then 30
    else if IsLeap(year) then 29 else 28
  }

  predicate ValidDate(c: Civil) {
    1 <= c.month <= 12 && 1 <= c.day <= DaysInMonth(c.year, c.month)
  }

  /** The reference calendar: what the day after a date is. */
  function NextDay(c: Civil): Civil {
    if c.day < DaysInMonth(c.year, c.month) then c.(day := c.day + 1)
    else if c.month < 12 then Civil(c.year, c.month + 1, 1)
    else Civil(c.year + 1, 1, 1)
  }

  /** Rust's integer division truncates toward zero. */
  function TruncDiv(a: int, b: int): int
    requires b > 0
  {
    if a >= 0 then a / b else -((-a) / b)
  }

  // Days in an era before its year `yoe`, where years begin on 1 March.
  function DaysBeforeYear(yoe: int): int {
    365 * yoe + yoe / 4 - yoe / 100
  }

  // The day at which the year after `yoe` begins; the era's last year gets the extra leap day.
  function YearEnd(yoe: int): int {
    if yoe == 399 then 146_097 else DaysBeforeYear(yoe + 1)
  }

  function YearOfEra(doe: int): int {
    (doe - doe / 1460 + doe / 36_524 - doe / 146_096) / 365
  }

  // Days of a March-based year before its month `mp`.
  function MonthStart(mp: int): int {
    (153 * mp + 2) / 5
  }

  function MonthOfYear(doy: int): int {
    (5 * doy + 2) / 153
  }

  // A date given by its March-based year and month.
  function FromMarch(y: int, mp: int, d: int): Civil {
    var m := if mp < 10 then mp + 3 else mp - 9;
    Civil(if m <= 2 then y + 1 else y, m, d)
  }

  function MarchYear(c: Civil): int {
    if c.month <= 2 then c.year - 1 else c.year
  }

  /** Days since the epoch to a date, as `rfc3339_utc` computes it. */
  function CivilFromDays(days: nat): Civil {
    var z := days + 719_468;
    var era, doe := z / 146_097, z % 146_097;
    var yoe := YearOfEra(doe);
    var doy := doe - DaysBeforeYear(yoe);
    var mp := MonthOfYear(doy);
    FromMarch(yoe + era * 400, mp, doy - MonthStart(mp) + 1)
  }

  /** A date to days since the epoch, as `parse_rfc3339_seconds` computes it. */
  function DaysFromCivil(c: Civil): int
    requires 1 <= c.month <= 12
  {
    var y := MarchYear(c);
    var era := TruncDiv(if y >= 0 then y else y - 399, 400);
    var yoe := y - era * 400;
    var doy := MonthStart((c.month + 9) % 12) + c.day - 1;
    era * 146_097 + DaysBeforeYear(yoe) + doy - 719_468
  }

  // The era split into centuries, four-year groups and years.
  lemma YearOfEraSplit(doe: int, c: int, q: int, s: int, y: int)
    requires 0 <= c <= 3 && 0 <= q <= 24 && 0 <= s <= 1460 && (q == 24 ==> s < 1460 || c == 3)
    requires doe == 36_524 * c + 1461 * q + s
    requires y == if s == 1460 then 3 else s / 365
    ensures YearOfEra(doe) == 100 * c + 4 * q + y
  {
    var f := (24 * c + q + s) / 1460;
    assert doe / 1460 == 25 * c + q + f;
    assert doe / 36_524 - doe / 146_096 == c;
    assert 0 <= s - 365 * y - f < 365;
  }

  lemma YearOfEraBounds(doe: int)
    requires 0 <= doe < 146_097
    ensures 0 <= YearOfEra(doe) < 400
    ensures DaysBeforeYear(YearOfEra(doe)) <= doe < YearEnd(YearOfEra(doe))
  {
    var c := if doe == 146_096 then 3 else doe / 36_524;
    var r := doe - 36_524 * c;
    var q, s := r / 1461, r % 1461;
    var y := if s == 1460 then 3 else s / 365;
    YearOfEraSplit(doe, c, q, s, y);
    var yoe := 100 * c + 4 * q + y;
    DaysBeforeParts(c, q, y);
    if yoe < 399 { DaysBeforeNext(c, q, y); }
  }

  lemma DaysBeforeParts(c: int, q: int, y: int)
    requires 0 <= c <= 3 && 0 <= q <= 24 && 0 <= y <= 3
    ensures 0 <= 100 * c + 4 * q + y < 400
    ensures DaysBeforeYear(100 * c + 4 * q + y) == 36_524 * c + 1461 * q + 365 * y
  {
    Numbers.DivModUnique(4, 25 * c + q, y);
    Numbers.DivModUnique(100, c, 4 * q + y);
  }

  lemma DaysBeforeNext(c: int, q: int, y: int)
    requires 0 <= c <= 3 && 0 <= q <= 24 && 0 <= y <= 3 && 100 * c + 4 * q + y < 399
    ensures DaysBeforeYear(100 * c + 4 * q + y + 1) ==
      36_524 * c + 1461 * q + 365 * (y + 1) + (if y == 3 && q < 24 then 1 else 0)
  {
    if y < 3 {
      DaysBeforeParts(c, q, y + 1);
    } else if q < 24 {
      DaysBeforeParts(c, q + 1, 0);
    } else {
      DaysBeforeParts(c + 1, 0, 0);
    }
  }

  lemma YearsOrdered(a: int, b: int)
    requires 0 <= a < b < 400
    ensures YearEnd(a) <= DaysBeforeYear(b)
  {
  }

  lemma MonthOfDay(doy: int)
    requires 0 <= doy <= 365
    ensures 0 <= MonthOfYear(doy) <= 11
    ensures MonthStart(MonthOfYear(doy)) <= doy < MonthStart(MonthOfYear(doy) + 1)
  {
  }

  lemma LeapInEra(era: int, year: int)
    ensures IsLeap(400 * era + year) <==> IsLeap(year)
  {
    AddMultiple(400, era, year);
    AddMultiple(100, 4 * era, year);
    AddMultiple(4, 100 * era, year);
  }

  lemma AddMultiple(m: nat, k: int, x: int)
    requires m > 0
    ensures (m * k + x) % m == x % m
  {
    assert x == m * (x / m) + x % m;
    assert m * (k + x / m) == m * k + m * (x / m);
    Numbers.DivModUnique(m, k + x / m, x % m);
  }

  // Length of the March-based year `yoe`, seen from February of the next civil year.
  lemma YearLength(era: int, yoe: int)
    requires 0 <= yoe < 400
    ensures YearEnd(yoe) - DaysBeforeYear(yoe) == if IsLeap(400 * era + yoe + 1) then 366 else 365
  {
    LeapInEra(era, yoe + 1);
    LengthInEra(yoe);
  }

  lemma LengthInEra(yoe: int)
    requires 0 <= yoe < 400
    ensures YearEnd(yoe) - DaysBeforeYear(yoe) == if IsLeap(yoe + 1) then 366 else 365
  {
    if yoe < 399 {
      assert (yoe + 1) / 4 - yoe / 4 == if (yoe + 1) % 4 == 0 then 1 else 0;
      assert (yoe + 1) / 100 - yoe / 100 == if (yoe + 1) % 100 == 0 then 1 else 0;
      assert (yoe + 1) % 100 == 0 ==> (yoe + 1) % 4 == 0;
      assert (yoe + 1) % 400 != 0;
    }
  }

  lemma FloorEra(y: int)
    ensures TruncDiv(if y >= 0 then y else y - 399, 400) == y / 400
  {
  }

  // Length of the March-based month `mp` of year `y`; the last month is the next year's February.
  function MonthLength(y: int, mp: int): int {
    if mp == 11 then (if IsLeap(y + 1) then 29 else 28) else MonthStart(mp + 1) - MonthStart(mp)
  }

  lemma MarchForm(c: Civil)
    requires 1 <= c.month <= 12
    ensures var y, mp := MarchYear(c), (c.month + 9) % 12;
            && 0 <= mp <= 11
            && c == FromMarch(y, mp, c.day)
            && DaysInMonth(c.year, c.month) == MonthLength(y, mp)
            && DaysFromCivil(c) == (y / 400) * 146_097 + DaysBeforeYear(y % 400) + MonthStart(mp) + c.day - 1 - 719_468
  {
    FloorEra(MarchYear(c));
  }

  lemma FromMarchForm(y: int, mp: int, d: int)
    requires 0 <= mp <= 11
    ensures var c := FromMarch(y, mp, d);
            1 <= c.month <= 12 && c.day == d && MarchYear(c) == y && (c.month + 9) % 12 == mp
  {
  }

  lemma EraOfDay(era: int, doe: int)
    requires 0 <= doe < 146_097
    ensures (era * 146_097 + doe) / 146_097 == era && (era * 146_097 + doe) % 146_097 == doe
  {
  }

  // The day of the year fits its month exactly when it is below the year's length.
  lemma DayFitsMonth(era: int, yoe: int, doy: int)
    requires 0 <= yoe < 400 && 0 <= doy < YearEnd(yoe) - DaysBeforeYear(yoe)
    ensures 0 <= MonthOfYear(doy) <= 11
    ensures var mp := MonthOfYear(doy); 1 <= doy - MonthStart(mp) + 1 <= MonthLength(400 * era + yoe, mp)
  {
    YearLength(era, yoe);
    MonthOfDay(doy);
    assert MonthStart(11) == 337;
  }

  lemma YearParts(era: int, yoe: int)
    requires 0 <= yoe < 400
    ensures (yoe + era * 400) / 400 == era && (yoe + era * 400) % 400 == yoe
  {
  }

  // The parts of a day number, from which its date is put together.
  lemma DayParts(days: nat) returns (era: int, yoe: int, doy: int)
    ensures 0 <= yoe < 400 && 0 <= doy < YearEnd(yoe) - DaysBeforeYear(yoe)
    ensures days + 719_468 == era * 146_097 + DaysBeforeYear(yoe) + doy
    ensures CivilFromDays(days) == FromMarch(yoe + era * 400, MonthOfYear(doy), doy - MonthStart(MonthOfYear(doy)) + 1)
  {
    var z := days + 719_468;
    var doe := z % 146_097;
    YearOfEraBounds(doe);
    era, yoe := z / 146_097, YearOfEra(doe);
    doy := doe - DaysBeforeYear(yoe);
  }

  lemma DateOfParts(c: Civil, era: int, yoe: int, doy: int)
    requires 0 <= yoe < 400 && 0 <= doy < YearEnd(yoe) - DaysBeforeYear(yoe)
    requires c == FromMarch(yoe + era * 400, MonthOfYear(doy), doy - MonthStart(MonthOfYear(doy)) + 1)
    ensures ValidDate(c)
    ensures DaysFromCivil(c) == era * 146_097 + DaysBeforeYear(yoe) + doy - 719_468
  {
    DayFitsMonth(era, yoe, doy);
    YearParts(era, yoe);
    FromMarchForm(yoe + era * 400, MonthOfYear(doy), c.day);
    MarchForm(c);
  }

  /** Printing a day's date and reading it back gives the day, and the date exists. */
  lemma CivilFromDaysIsValid(days: nat)
    ensures ValidDate(CivilFromDays(days))
    ensures DaysFromCivil(CivilFromDays(days)) == days
  {
    var era, yoe, doy := DayParts(days);
    DateOfParts(CivilFromDays(days), era, yoe, doy);
  }

  lemma MonthIsUnique(y: int, mp: int, d: int)
    requires 0 <= mp <= 11 && 1 <= d <= MonthLength(y, mp)
    ensures MonthOfYear(MonthStart(mp) + d - 1) == mp
    ensures 0 <= MonthStart(mp) + d - 1 < if IsLeap(y + 1) then 366 else 365
  {
  }

  lemma PartsAreUnique(era: int, yoe: int, doy: int, era': int, yoe': int, doy': int)
    requires 0 <= yoe < 400 && 0 <= doy < YearEnd(yoe) - DaysBeforeYear(yoe)
    requires 0 <= yoe' < 400 && 0 <= doy' < YearEnd(yoe') - DaysBeforeYear(yoe')
    requires era * 146_097 + DaysBeforeYear(yoe) + doy == era' * 146_097 + DaysBeforeYear(yoe') + doy'
    ensures era == era' && yoe == yoe' && doy == doy'
  {
    EraOfDay(era, DaysBeforeYear(yoe) + doy);
    EraOfDay(era', DaysBeforeYear(yoe') + doy');
    if yoe < yoe' { YearsOrdered(yoe, yoe'); }
    if yoe' < yoe { YearsOrdered(yoe', yoe); }
  }

  // The parts of a date, from which its day number is put together.
  lemma DateParts(c: Civil) returns (era: int, yoe: int, doy: int)
    requires ValidDate(c)
    ensures 0 <= yoe < 400 && 0 <= doy < YearEnd(yoe) - DaysBeforeYear(yoe)
    ensures c == FromMarch(yoe + era * 400, MonthOfYear(doy), doy - MonthStart(MonthOfYear(doy)) + 1)
    ensures MarchYear(c) == yoe + era * 400
    ensures DaysFromCivil(c) == era * 146_097 + DaysBeforeYear(yoe) + doy - 719_468
  {
    MarchForm(c);
    var y, mp := MarchYear(c), (c.month + 9) % 12;
    era, yoe, doy := y / 400, y % 400, MonthStart(mp) + c.day - 1;
    YearLength(era, yoe);
    MonthIsUnique(y, mp, c.day);
  }

  lemma DateOfDay(c: Civil, days: nat)
    requires ValidDate(c) && DaysFromCivil(c) == days
    ensures CivilFromDays(days) == c
  {
    var era, yoe, doy := DateParts(c);
    var era', yoe', doy' := DayParts(days);
    PartsAreUnique(era, yoe, doy, era', yoe', doy');
  }

  /** Every date that exists, from the epoch on, is the date of its own day number. */
  lemma CivilFromDaysOfDate(c: Civil)
    requires ValidDate(c) && DaysFromCivil(c) >= 0
    ensures CivilFromDays(DaysFromCivil(c)) == c
  {
    DateOfDay(c, DaysFromCivil(c));
  }

  lemma NextYear(y: int)
    ensures ((y + 1) / 400) * 146_097 + DaysBeforeYear((y + 1) % 400)
         == (y / 400) * 146_097 + YearEnd(y % 400)
  {
    if y % 400 == 399 {
      assert (y + 1) / 400 == y / 400 + 1 && (y + 1) % 400 == 0;
    } else {
      assert (y + 1) / 400 == y / 400 && (y + 1) % 400 == y % 400 + 1;
    }
  }

  lemma NextMonthAddsOne(y: int, mp: int)
    requires 0 <= mp <= 11
    ensures mp < 11 ==> MonthStart(mp) + MonthLength(y, mp) == MonthStart(mp + 1)
    ensures mp == 11 ==>
      ((y + 1) / 400) * 146_097 + DaysBeforeYear((y + 1) % 400)
      == (y / 400) * 146_097 + DaysBeforeYear(y % 400) + MonthStart(mp) + MonthLength(y, mp)
  {
    NextYear(y);
    YearLength(y / 400, y % 400);
    assert MonthStart(11) == 337;
  }

  // The day after a date, in March-based terms.
  lemma NextDayForm(c: Civil)
    requires ValidDate(c)
    ensures var y, mp, n := MarchYear(c), (c.month + 9) % 12, NextDay(c);
            && ValidDate(n)
            && (c.day < MonthLength(y, mp) ==> MarchYear(n) == y && (n.month + 9) % 12 == mp && n.day == c.day + 1)
            && (c.day == MonthLength(y, mp) && mp < 11 ==>
                 MarchYear(n) == y && (n.month + 9) % 12 == mp + 1 && n.day == 1)
            && (c.day == MonthLength(y, mp) && mp == 11 ==>
                 MarchYear(n) == y + 1 && (n.month + 9) % 12 == 0 && n.day == 1)
            && c.day <= MonthLength(y, mp)
  {
    MarchForm(c);
  }

  lemma NextDayAddsOne(c: Civil)
    requires ValidDate(c)
    ensures ValidDate(NextDay(c)) && DaysFromCivil(NextDay(c)) == DaysFromCivil(c) + 1
  {
    NextDayForm(c);
    MarchForm(c);
    MarchForm(NextDay(c));
    NextMonthAddsOne(MarchYear(c), (c.month + 9) % 12);
  }

  lemma DateAfter(c: Civil, days: nat)
    requires ValidDate(c) && DaysFromCivil(c) == days
    ensures CivilFromDays(days + 1) == NextDay(c)
  {
    NextDayAddsOne(c);
    CivilFromDaysOfDate(NextDay(c));
  }

  /**
   * The printed date is the Gregorian calendar's: day 0 is 1 January 1970 and
   * every later day is the calendar's next day.
   */
  lemma DatesFollowTheCalendar(days: nat)
    ensures CivilFromDays(0) == Civil(1970, 1, 1)
    ensures CivilFromDays(days + 1) == NextDay(CivilFromDays(days))
  {
    FirstDay();
    NextDate(days);
  }

  lemma FirstDay()
    ensures CivilFromDays(0) == Civil(1970, 1, 1)
  {
    EpochIsDayZero();
    DateOfDay(Civil(1970, 1, 1), 0);
  }

  lemma EpochIsDayZero()
    ensures ValidDate(Civil(1970, 1, 1)) && DaysFromCivil(Civil(1970, 1, 1)) == 0
  {
    assert MarchYear(Civil(1970, 1, 1)) == 1969;
    assert TruncDiv(1969, 400) == 4 && DaysBeforeYear(369) == 134_774 && MonthStart(10) == 306;
  }

  lemma NextDate(days: nat)
    ensures CivilFromDays(days + 1) == NextDay(CivilFromDays(days))
  {
    CivilFromDaysIsValid(days);
    DateAfter(CivilFromDays(days), days);
  }

  // ---------------------------------------------------------------------
  // Texts
  // ---------------------------------------------------------------------

  predicate IsDigit(c: char) { '0' <= c <= '9' }

  function DigitValue(c: char): nat
    requires IsDigit(c)
  {
    c as int - '0' as int
  }

  function DigitChar(n: int): char
    requires 0 <= n <= 9
  {
    (n + '0' as int) as char
  }

  predicate AllDigits(s: string) {
    forall i :: 0 <= i < |s| ==> IsDigit(s[i])
  }

  function DigitsValue(s: string): nat
    requires AllDigits(s)
  {
    if s == "" then 0 else 10 * DigitsValue(s[..|s| - 1]) + DigitValue(s[|s| - 1])
  }

  /** `str::parse::<i64>` on the two- and four-byte fields: digits with an optional sign. */
  function ParseField(s: string): Option<int> {
    if s != "" && AllDigits(s) then Some(DigitsValue(s))
    else if |s| >= 2 && s[0] == '+' && AllDigits(s[1..]) then Some(DigitsValue(s[1..]))
    else if |s| >= 2 && s[0] == '-' && AllDigits(s[1..]) then Some(-(DigitsValue(s[1..]) as int))
    else None
  }

  /** `{n:0width}` for a non-negative number. */
  function Pad(n: nat, width: nat): string
    decreases n, width
  {
    if n < 10 && width <= 1 then [DigitChar(n)]
    else Pad(n / 10, if width == 0 then 0 else width - 1) + [DigitChar(n % 10)]
  }

  datatype Fields = Fields(year: int, month: int, day: int, hour: int, minute: int, second: int)

  function WithClock(c: Civil, secs: int): Fields {
    Fields(c.year, c.month, c.day, secs / 3600, (secs / 60) % 60, secs % 60)
  }

  function SplitSecond(t: nat): Fields {
    WithClock(CivilFromDays(t / 86_400), t % 86_400)
  }

  predicate ValidFields(f: Fields) {
    f.year >= 0 && ValidDate(Civil(f.year, f.month, f.day))
    && 0 <= f.hour <= 23 && 0 <= f.minute <= 59 && 0 <= f.second <= 59
  }

  function SecondOf(f: Fields): int
    requires 1 <= f.month <= 12
  {
    DaysFromCivil(Civil(f.year, f.month, f.day)) * 86_400 + f.hour * 3_600 + f.minute * 60 + f.second
  }

  // A printed text is its six fields at their fixed places.
  function Layout(y: string, m: string, d: string, h: string, mi: string, sec: string): string {
    y + "-" + m + "-" + d + "T" + h + ":" + mi + ":" + sec + "Z"
  }

  function PrintFields(f: Fields): string
    requires ValidFields(f)
  {
    Layout(Pad(f.year, 4), Pad(f.month, 2), Pad(f.day, 2), Pad(f.hour, 2), Pad(f.minute, 2), Pad(f.second, 2))
  }

  /** `rfc3339_utc`. */
  function Print(t: nat): string {
    SplitSecondValue(t);
    PrintFields(SplitSecond(t))
  }

  lemma YearIsPositive(days: nat)
    ensures CivilFromDays(days).year >= 0 && CivilFromDays(days).month >= 0 && CivilFromDays(days).day >= 0
  {
    CivilFromDaysIsValid(days);
    YearOfEraBounds((days + 719_468) % 146_097);
  }

  predicate HasSeparators(s: string) {
    |s| == 20 && s[4] == '-' && s[7] == '-' && s[10] == 'T' && s[13] == ':' && s[16] == ':' && s[19] == 'Z'
  }

  function ReadFields(s: string): Option<Fields>
    requires |s| == 20
  {
    match (ParseField(s[0..4]), ParseField(s[5..7]), ParseField(s[8..10]),
           ParseField(s[11..13]), ParseField(s[14..16]), ParseField(s[17..19]))
    case (Some(y), Some(m), Some(d), Some(h), Some(mi), Some(sec)) => Some(Fields(y, m, d, h, mi, sec))
    case _ => None
  }

  const U64_MAX: nat := 0xFFFF_FFFF_FFFF_FFFF

  /** `parse_rfc3339_seconds`. */
  function Parse(s: string): Option<nat> {
    if !HasSeparators(s) then None else
    match ReadFields(s)
    case None => None
    case Some(f) =>
      if !(1 <= f.month <= 12) then None
      else if f.hour > 23 || f.minute > 59 || f.second > 59 then None
      else if !(1 <= f.day <= DaysInMonth(f.year, f.month)) then None
      else
        var t := SecondOf(f);
        if 0 <= t <= U64_MAX then Some(t) else None
  }

  /** Whether every numeric field of a text is made of digits alone. */
  predicate DigitsOnly(s: string)
    requires |s| == 20
  {
    AllDigits(s[0..4]) && AllDigits(s[5..7]) && AllDigits(s[8..10])
    && AllDigits(s[11..13]) && AllDigits(s[14..16]) && AllDigits(s[17..19])
  }

  // ---------------------------------------------------------------------
  // Fields
  // ---------------------------------------------------------------------

  function Pow10(width: nat): nat {
    if width == 0 then 1 else 10 * Pow10(width - 1)
  }

  lemma PadValue(n: nat, width: nat)
    ensures AllDigits(Pad(n, width)) && DigitsValue(Pad(n, width)) == n
    ensures width >= 1 ==> (|Pad(n, width)| == width <==> n < Pow10(width)) && |Pad(n, width)| >= width
  {
    PadDigits(n, width);
    if width >= 1 { PadSize(n, width); }
  }

  lemma {:induction false} PadDigits(n: nat, width: nat)
    ensures AllDigits(Pad(n, width)) && DigitsValue(Pad(n, width)) == n
    decreases n, width
  {
    var p := Pad(n, width);
    if n < 10 && width <= 1 {
      assert p[..0] == "";
    } else {
      var rest := Pad(n / 10, if width == 0 then 0 else width - 1);
      PadDigits(n / 10, if width == 0 then 0 else width - 1);
      assert p == rest + [DigitChar(n % 10)] && p[..|p| - 1] == rest;
    }
  }

  lemma {:induction false} PadSize(n: nat, width: nat)
    requires width >= 1
    ensures (|Pad(n, width)| == width <==> n < Pow10(width)) && |Pad(n, width)| >= width
    decreases width
  {
    if width == 1 {
      assert Pow10(1) == 10;
      if n >= 10 { PadLength(n / 10); }
    } else {
      PadSize(n / 10, width - 1);
      TenTimes(n, Pow10(width - 1));
    }
  }

  lemma TenTimes(n: nat, p: nat)
    ensures n / 10 < p <==> n < 10 * p
  {
  }

  lemma {:induction false} PadLength(n: nat)
    ensures |Pad(n, 0)| >= 1
  {
    if n >= 10 { PadLength(n / 10); }
  }

  lemma {:induction false} PadOfValue(s: string)
    requires s != "" && AllDigits(s)
    ensures Pad(DigitsValue(s), |s|) == s
  {
    var front := s[..|s| - 1];
    var n := DigitsValue(s);
    assert s == front + [s[|s| - 1]];
    assert n % 10 == DigitValue(s[|s| - 1]) && n / 10 == DigitsValue(front);
    if front == "" {
      assert DigitsValue(front) == 0;
    } else {
      PadOfValue(front);
    }
  }

  const LAST_SECOND: nat := 253_402_300_799

  lemma LayoutFields(y: string, m: string, d: string, h: string, mi: string, sec: string)
    requires |y| == 4 && |m| == |d| == |h| == |mi| == |sec| == 2
    ensures var s := Layout(y, m, d, h, mi, sec);
            && HasSeparators(s)
            && s[0..4] == y && s[5..7] == m && s[8..10] == d && s[11..13] == h && s[14..16] == mi && s[17..19] == sec
  {
  }

  lemma FieldsLayout(s: string)
    requires HasSeparators(s)
    ensures s == Layout(s[0..4], s[5..7], s[8..10], s[11..13], s[14..16], s[17..19])
  {
  }

  // The year 9999 ends with the last second.
  lemma YearBound(c: Civil)
    requires ValidDate(c)
    ensures c.year <= 9999 ==> DaysFromCivil(c) <= 2_932_896
    ensures c.year >= 10_000 ==> DaysFromCivil(c) > 2_932_896
  {
    MarchForm(c);
    var y, mp := MarchYear(c), (c.month + 9) % 12;
    MonthIsUnique(y, mp, c.day);
    YearLength(y / 400, y % 400);
    NextYear(y);
    MonthsAroundJanuary(y, mp, c.day);
    assert YearStart(9999) == 3_652_059 && YearStart(10_000) == 3_652_425;
    if y <= 9998 {
      YearStartMonotone(y + 1, 9999);
    } else if y >= 10_000 {
      YearStartMonotone(10_000, y);
    }
  }

  lemma MonthsAroundJanuary(y: int, mp: int, d: int)
    requires 0 <= mp <= 11 && 1 <= d <= MonthLength(y, mp)
    ensures mp <= 9 <==> MonthStart(mp) + d - 1 < 306
  {
  }

  function YearStart(y: int): int {
    (y / 400) * 146_097 + DaysBeforeYear(y % 400)
  }

  lemma YearStartMonotone(a: int, b: int)
    requires a <= b
    ensures YearStart(a) <= YearStart(b)
    decreases b - a
  {
    if a < b {
      NextYear(a);
      YearLength(a / 400, a % 400);
      YearStartMonotone(a + 1, b);
    }
  }

  lemma WithClockValue(c: Civil, days: int, secs: int)
    requires ValidDate(c) && c.year >= 0 && DaysFromCivil(c) == days && 0 <= secs < 86_400
    ensures ValidFields(WithClock(c, secs)) && SecondOf(WithClock(c, secs)) == days * 86_400 + secs
  {
    var f := WithClock(c, secs);
    assert f.hour * 3_600 + f.minute * 60 + f.second == secs;
  }

  lemma SplitSecondValue(t: nat)
    ensures ValidFields(SplitSecond(t)) && SecondOf(SplitSecond(t)) == t
  {
    var days := t / 86_400;
    CivilFromDaysIsValid(days);
    YearIsPositive(days);
    WithClockValue(CivilFromDays(days), days, t % 86_400);
  }

  lemma TwoDigits(n: nat)
    requires n < 100
    ensures |Pad(n, 2)| == 2 && AllDigits(Pad(n, 2)) && ParseField(Pad(n, 2)) == Some(n)
  {
    PadValue(n, 2);
    assert Pow10(2) == 100;
  }

  lemma FourDigits(n: nat)
    ensures AllDigits(Pad(n, 4)) && ParseField(Pad(n, 4)) == Some(n)
    ensures |Pad(n, 4)| >= 4 && (|Pad(n, 4)| == 4 <==> n <= 9999)
  {
    PadValue(n, 4);
    assert Pow10(4) == 10_000;
  }

  lemma ReadOfPrintFields(f: Fields)
    requires ValidFields(f)
    ensures f.year <= 9999 ==>
      HasSeparators(PrintFields(f)) && DigitsOnly(PrintFields(f)) && ReadFields(PrintFields(f)) == Some(f)
    ensures f.year > 9999 ==> |PrintFields(f)| > 20
  {
    FourDigits(f.year);
    TwoDigits(f.month);
    TwoDigits(f.day);
    TwoDigits(f.hour);
    TwoDigits(f.minute);
    TwoDigits(f.second);
    if f.year <= 9999 {
      LayoutFields(Pad(f.year, 4), Pad(f.month, 2), Pad(f.day, 2), Pad(f.hour, 2), Pad(f.minute, 2), Pad(f.second, 2));
    }
  }

  lemma ParseOfFields(f: Fields)
    requires ValidFields(f) && 0 <= SecondOf(f) <= U64_MAX
    ensures Parse(PrintFields(f)) == if SecondOf(f) <= LAST_SECOND then Some(SecondOf(f)) else None
  {
    ReadOfPrintFields(f);
    FieldsBound(f);
  }

  lemma FieldsBound(f: Fields)
    requires ValidFields(f)
    ensures f.year <= 9999 <==> SecondOf(f) <= LAST_SECOND
  {
    YearBound(Civil(f.year, f.month, f.day));
  }

  /**
   * For every second the printer and the parser can both express, parsing the
   * printed text gives the second back; beyond the year 9999 it is refused.
   */
  lemma ParseOfPrint(t: nat)
    requires t <= U64_MAX
    ensures Parse(Print(t)) == if t <= LAST_SECOND then Some(t) else None
  {
    SplitSecondValue(t);
    ParseOfFields(SplitSecond(t));
  }

  /** The date `days` steps of the calendar after 1 January 1970. */
  ghost function DateAfterEpoch(days: nat): Civil {
    if days == 0 then Civil(1970, 1, 1) else NextDay(DateAfterEpoch(days - 1))
  }

  lemma {:induction false} CountedIsDate(days: nat)
    ensures ValidDate(DateAfterEpoch(days)) && DaysFromCivil(DateAfterEpoch(days)) == days
  {
    if days == 0 {
      EpochIsDayZero();
    } else {
      CountedIsDate(days - 1);
      NextDayAddsOne(DateAfterEpoch(days - 1));
    }
  }

  /** The number two digits of a text show. */
  ghost function Shown(s: string, i: nat): int
    requires i + 1 < |s|
  {
    (s[i] as int - '0' as int) * 10 + (s[i + 1] as int - '0' as int)
  }

  lemma TwoShown(s: string, i: nat)
    requires i + 2 <= |s| && AllDigits(s[i..i + 2])
    ensures ParseField(s[i..i + 2]) == Some(Shown(s, i))
  {
    var t := s[i..i + 2];
    assert t[0] == s[i] && t[1] == s[i + 1] && t[..1] == [t[0]] && t[..1][..0] == "";
    assert DigitsValue(t[..1]) == DigitValue(t[0]);
  }

  lemma FourShown(s: string)
    requires 4 <= |s| && AllDigits(s[0..4])
    ensures ParseField(s[0..4]) == Some(Shown(s, 0) * 100 + Shown(s, 2))
  {
    var t := s[0..4];
    assert t[..3][..2] == t[..2] && t[..2][..1] == t[..1] && t[..1][..0] == "";
    assert DigitsValue(t[..1]) == DigitValue(t[0]);
    assert DigitsValue(t[..2]) == 10 * DigitsValue(t[..1]) + DigitValue(t[1]);
    assert DigitsValue(t[..3]) == 10 * DigitsValue(t[..2]) + DigitValue(t[2]);
  }

  /** The text shows year, month, day, hour, minute and second at their RFC 3339 places. */
  ghost predicate Shows(s: string, date: Civil, hour: int, minute: int, second: int) {
    && |s| == 20
    && s[4] == '-' && s[7] == '-' && s[10] == 'T' && s[13] == ':' && s[16] == ':' && s[19] == 'Z'
    && Shown(s, 0) * 100 + Shown(s, 2) == date.year
    && Shown(s, 5) == date.month
    && Shown(s, 8) == date.day
    && Shown(s, 11) == hour
    && Shown(s, 14) == minute
    && Shown(s, 17) == second
  }

  lemma FieldsShow(f: Fields)
    requires ValidFields(f) && f.year <= 9999
    ensures Shows(PrintFields(f), Civil(f.year, f.month, f.day), f.hour, f.minute, f.second)
  {
    var s := PrintFields(f);
    ReadOfPrintFields(f);
    TextShows(s, f);
  }

  lemma TextShows(s: string, f: Fields)
    requires HasSeparators(s) && DigitsOnly(s) && ReadFields(s) == Some(f)
    ensures Shows(s, Civil(f.year, f.month, f.day), f.hour, f.minute, f.second)
  {
    FourShown(s);
    TwoShown(s, 5);
    TwoShown(s, 8);
    TwoShown(s, 11);
    TwoShown(s, 14);
    TwoShown(s, 17);
  }

  lemma SplitIs(t: nat, days: nat, hour: int, minute: int, second: int)
    requires 0 <= hour <= 23 && 0 <= minute <= 59 && 0 <= second <= 59
    requires t == days * 86_400 + hour * 3_600 + minute * 60 + second
    ensures var c := DateAfterEpoch(days); SplitSecond(t) == Fields(c.year, c.month, c.day, hour, minute, second)
  {
    ClockOfSeconds(days, hour, minute, second);
    var c := DateAfterEpoch(days);
    CountedIsDate(days);
    DateOfDay(c, days);
    SplitAt(t, days, hour * 3_600 + minute * 60 + second, c);
    ClockFields(c, hour, minute, second);
  }

  lemma SplitAt(t: nat, days: nat, secs: nat, c: Civil)
    requires t / 86_400 == days && t % 86_400 == secs && CivilFromDays(days) == c
    ensures SplitSecond(t) == WithClock(c, secs)
  {
  }

  lemma ClockFields(c: Civil, hour: int, minute: int, second: int)
    requires 0 <= hour <= 23 && 0 <= minute <= 59 && 0 <= second <= 59
    ensures WithClock(c, hour * 3_600 + minute * 60 + second) == Fields(c.year, c.month, c.day, hour, minute, second)
  {
    ClockOfSeconds(0, hour, minute, second);
  }

  /** What is printed is the date counted on the calendar from the epoch, and the clock of the rest of the day. */
  lemma PrintShows(t: nat, days: nat, hour: int, minute: int, second: int)
    requires t <= LAST_SECOND && 0 <= hour <= 23 && 0 <= minute <= 59 && 0 <= second <= 59
    requires t == days * 86_400 + hour * 3_600 + minute * 60 + second
    ensures Shows(Print(t), DateAfterEpoch(days), hour, minute, second)
  {
    SplitIs(t, days, hour, minute, second);
    SplitSecondValue(t);
    FieldsBound(SplitSecond(t));
    FieldsShow(SplitSecond(t));
  }

  lemma ClockOfSeconds(days: int, h: int, m: int, s: int)
    requires 0 <= h <= 23 && 0 <= m <= 59 && 0 <= s <= 59
    ensures var secs := h * 3_600 + m * 60 + s;
            && (days * 86_400 + secs) / 86_400 == days && (days * 86_400 + secs) % 86_400 == secs
            && secs / 3600 == h && (secs / 60) % 60 == m && secs % 60 == s
  {
    var secs := h * 3_600 + m * 60 + s;
    assert secs / 60 == h * 60 + m;
  }

  lemma SplitOfFields(f: Fields)
    requires ValidFields(f) && SecondOf(f) >= 0
    ensures SplitSecond(SecondOf(f)) == f
  {
    var c := Civil(f.year, f.month, f.day);
    var days := DaysFromCivil(c);
    ClockOfSeconds(days, f.hour, f.minute, f.second);
    CivilFromDaysOfDate(c);
  }

  // What an accepted text of digits says, field by field.
  lemma AcceptedFields(s: string) returns (f: Fields)
    requires Parse(s).Some? && DigitsOnly(s)
    ensures ValidFields(f) && SecondOf(f) == Parse(s).value && f.year <= 9999
    ensures PrintFields(f) == s
  {
    f := ReadFields(s).value;
    PadOfValue(s[0..4]);
    PadOfValue(s[5..7]);
    PadOfValue(s[8..10]);
    PadOfValue(s[11..13]);
    PadOfValue(s[14..16]);
    PadOfValue(s[17..19]);
    PadValue(f.year, 4);
    assert Pow10(4) == 10_000;
    FieldsLayout(s);
  }

  // Whatever a field's sign, an accepted text names no second past the last one.
  lemma AcceptedBound(s: string)
    requires Parse(s).Some?
    ensures Parse(s).value <= LAST_SECOND
  {
    var f := ReadFields(s).value;
    FieldBound(s[0..4]);
    YearBound(Civil(f.year, f.month, f.day));
  }

  lemma FieldBound(s: string)
    requires |s| == 4 && ParseField(s).Some?
    ensures ParseField(s).value <= 9999
  {
    var digits := if AllDigits(s) then s else s[1..];
    PadOfValue(digits);
    PadValue(DigitsValue(digits), |digits|);
    assert Pow10(3) == 1000 && Pow10(4) == 10_000;
  }

  /**
   * An accepted text is the printed form of the second it names exactly when
   * its numeric fields are digits only: the parser also takes a sign.
   */
  lemma PrintOfParse(s: string)
    requires Parse(s).Some?
    ensures Print(Parse(s).value) == s <==> DigitsOnly(s)
  {
    var t := Parse(s).value;
    AcceptedBound(s);
    SplitSecondValue(t);
    var g := SplitSecond(t);
    YearBound(Civil(g.year, g.month, g.day));
    ReadOfPrintFields(g);
    if DigitsOnly(s) {
      var f := AcceptedFields(s);
      SplitOfFields(f);
    }
  }

  /** Two spellings of one instant, which the parser's own comment rules out. */
  lemma SignedSpellingIsAccepted(s: string, s': string)
    requires s == "1970-01-02T-1:00:00Z" && s' == "1970-01-01T23:00:00Z"
    ensures Parse(s) == Some(82_800) == Parse(s')
  {
    ReadSigned(s);
    ReadUnsigned(s');
    var f, f' := Fields(1970, 1, 2, -1, 0, 0), Fields(1970, 1, 1, 23, 0, 0);
    ExampleSeconds(f, f');
    AcceptFields(s, f);
    AcceptFields(s', f');
  }

  lemma AcceptFields(s: string, f: Fields)
    requires HasSeparators(s) && ReadFields(s) == Some(f)
    requires ValidDate(Civil(f.year, f.month, f.day)) && f.hour <= 23 && f.minute <= 59 && f.second <= 59
    requires 0 <= SecondOf(f) <= U64_MAX
    ensures Parse(s) == Some(SecondOf(f))
  {
  }

  lemma ReadSigned(s: string)
    requires s == "1970-01-02T-1:00:00Z"
    ensures HasSeparators(s) && ReadFields(s) == Some(Fields(1970, 1, 2, -1, 0, 0))
  {
    FieldExamples();
    SixSlices(s);
  }

  lemma ReadUnsigned(s: string)
    requires s == "1970-01-01T23:00:00Z"
    ensures HasSeparators(s) && ReadFields(s) == Some(Fields(1970, 1, 1, 23, 0, 0))
  {
    FieldExamples();
    SixSlices(s);
  }

  lemma SixSlices(s: string)
    requires |s| == 20
    ensures s[0..4] == [s[0], s[1], s[2], s[3]]
    ensures s[5..7] == [s[5], s[6]] && s[8..10] == [s[8], s[9]] && s[11..13] == [s[11], s[12]]
    ensures s[14..16] == [s[14], s[15]] && s[17..19] == [s[17], s[18]]
  {
  }

  lemma ExampleSeconds(f: Fields, f': Fields)
    requires f == Fields(1970, 1, 2, -1, 0, 0) && f' == Fields(1970, 1, 1, 23, 0, 0)
    ensures ValidDate(Civil(f.year, f.month, f.day)) && ValidDate(Civil(f'.year, f'.month, f'.day))
    ensures SecondOf(f) == 82_800 == SecondOf(f')
  {
    assert DaysFromCivil(Civil(1970, 1, 1)) == 0 && DaysFromCivil(Civil(1970, 1, 2)) == 1;
  }

  lemma OneDigit(a: char)
    requires IsDigit(a)
    ensures DigitsValue([a]) == DigitValue(a)
  {
    assert [a][..0] == "";
    assert DigitsValue("") == 0;
  }

  lemma DigitPair(a: char, b: char)
    requires IsDigit(a) && IsDigit(b)
    ensures DigitsValue([a, b]) == 10 * DigitValue(a) + DigitValue(b)
  {
    assert [a, b][..1] == [a];
    OneDigit(a);
  }

  lemma FieldExamples()
    ensures ParseField("1970") == Some(1970) && ParseField("00") == Some(0) && ParseField("01") == Some(1)
    ensures ParseField("02") == Some(2) && ParseField("23") == Some(23) && ParseField("-1") == Some(-1)
  {
    DigitPair('1', '9');
    assert "197"[..2] == ['1', '9'];
    assert DigitsValue("197") == 197;
    assert "1970"[..3] == "197";
    DigitPair('0', '0');
    DigitPair('0', '1');
    DigitPair('0', '2');
    DigitPair('2', '3');
    OneDigit('1');
    assert "-1"[1..] == ['1'];
  }
}
