/**
 * The Ethiopian <-> Gregorian date converter of converter.py.
 *
 * Everything the Python class computes is integer arithmetic over fixed
 * month-length tables. The validators and the arithmetic are modelled as
 * functions; the two conversion routines, which fill local month-length
 * lists in place and scan them with loops, are modelled as methods over
 * arrays that are proved to compute those functions.
 */
module Converter {
  import opened Wrappers

  /** A (year, month, day) triple in either calendar. */
  datatype Date = Date(year: int, month: int, day: int)

  /** The messages of `_validate_ethiopian_date`, with the values they interpolate. */
  datatype EthiopianError =
    | EthiopianYearNotPositive(year: int)
    | EthiopianMonthNotPositive(month: int)
    | EthiopianDayNotPositive(day: int)
    | EthiopianMonthAbove13(month: int)
    | DayAbove30(month: int, day: int)
    | PagumeDayTooLarge(maxDays: int, leapYear: bool, year: int, day: int)

  /** The messages of `_validate_gregorian_date`, with the values they interpolate. */
  datatype GregorianError =
    | GregorianYearNotPositive(year: int)
    | GregorianMonthNotPositive(month: int)
    | GregorianDayNotPositive(day: int)
    | GregorianMonthAbove12(month: int)
    | SkippedByReform
    | DayAboveMonthLength(month: int, maxDays: int, year: int, februaryLeap: Option<bool>, day: int)

  /** The ValueError that Python's `datetime.date` raises for a date it cannot represent. */
  datatype DatetimeError = YearOutOfRange(year: int) | MonthOutOfRange | DayOutOfRange

  /** Every ValueError a conversion can raise. */
  datatype ConversionError =
    | InvalidEthiopian(ethiopian: EthiopianError)
    | InvalidGregorian(gregorian: GregorianError)
    | NotADatetime(datetime: DatetimeError)

  /**
   * The outcome of a conversion: the converted date, the ValueError raised, or the
   * OverflowError `datetime.date` raises for an argument that is not a C `int`.
   */
  datatype Conversion = Converted(date: Date) | Failed(error: ConversionError) | Overflowed(argument: int)

  // ---------------------------------------------------------------------------
  // Leap years and the new-year offset

  /**
   * `_is_ethiopian_leap_year`: the year whose Pagume has six days. The rule
   * `(year - 1) mod 4 == 3` singles out the multiples of four.
   */
  function IsEthiopianLeapYear(year: int): (r: bool)
    ensures r <==> year % 4 == 0
  {
    (year - 1) % 4 == 3
  }

  /**
   * `_is_gregorian_leap_year`: every fourth year, except the century years that
   * are not multiples of 400.
   */
  function IsGregorianLeapYear(year: int): (r: bool)
    ensures r ==> year % 4 == 0
    ensures year % 100 != 0 ==> (r <==> year % 4 == 0)
    ensures year % 100 == 0 ==> (r <==> year % 400 == 0)
  {
    (year % 4 == 0 && year % 100 != 0) || year % 400 == 0
  }

  /**
   * `_start_day_of_ethiopian`: how many days after a fixed Gregorian reference the
   * Ethiopian year starts. Python's `//` on a possibly negative year floors, which is
   * what Dafny's `/` does for a positive divisor. Counted from 31 August, it is the
   * offset of 1 Meskerem into September: 11, or 12 in an Ethiopian leap year,
   * throughout the Ethiopian years 1900 to 2099. `to_gregorian` adds the leap day a
   * second time, so its 1 Meskerem of a leap year comes out as 13 September.
   */
  function NewYearOffset(year: int): (r: int)
    ensures 1900 <= year <= 2099 ==> r == if year % 4 == 0 then 12 else 11
  {
    year / 100 - year / 400 - 4 + (if IsEthiopianLeapYear(year) then 1 else 0)
  }

  // ---------------------------------------------------------------------------
  // Validation

  /** Days in an Ethiopian month: thirty, except Pagume with five or six. */
  function EthiopianMonthLength(year: int, month: int): int
    requires 1 <= month <= 13
  {
    if month <= 12 then 30 else if IsEthiopianLeapYear(year) then 6 else 5
  }

  /** A date of the Ethiopian calendar as the validator understands it. */
  predicate IsEthiopianDate(year: int, month: int, day: int) {
    year >= 1 && 1 <= month <= 13 && 1 <= day <= EthiopianMonthLength(year, month)
  }

  /**
   * `_validate_ethiopian_date`: no message exactly for a valid date; otherwise the
   * first failing check, in the order year, month <= 0, day <= 0, month > 13, day.
   */
  function ValidateEthiopian(year: int, month: int, day: int): (r: Option<EthiopianError>)
    ensures r == None <==> IsEthiopianDate(year, month, day)
    ensures year <= 0 ==> r == Some(EthiopianYearNotPositive(year))
    ensures year > 0 && month <= 0 ==> r == Some(EthiopianMonthNotPositive(month))
    ensures year > 0 && month > 0 && day <= 0 ==> r == Some(EthiopianDayNotPositive(day))
    ensures year > 0 && month > 13 && day > 0 ==> r == Some(EthiopianMonthAbove13(month))
    ensures year > 0 && 1 <= month <= 12 && day > 30 ==> r == Some(DayAbove30(month, day))
    ensures year > 0 && month == 13 && day > EthiopianMonthLength(year, 13) ==>
      r == Some(PagumeDayTooLarge(EthiopianMonthLength(year, 13), IsEthiopianLeapYear(year), year, day))
  {
    if year <= 0 then Some(EthiopianYearNotPositive(year))
    else if month <= 0 then Some(EthiopianMonthNotPositive(month))
    else if day <= 0 then Some(EthiopianDayNotPositive(day))
    else if month > 13 then Some(EthiopianMonthAbove13(month))
    else if month <= 12 then
      if day > 30 then Some(DayAbove30(month, day)) else None
    else
      var isLeap := IsEthiopianLeapYear(year);
      var maxDays := if isLeap then 6 else 5;
      if day > maxDays then Some(PagumeDayTooLarge(maxDays, isLeap, year, day)) else None
  }

  /** `days_in_month` of `_validate_gregorian_date`, before the leap-year fix-up. */
  const GregorianMonthDays: seq<int> := [0, 31, 28, 31, 30, 31, 30, 31, 31, 30, 31, 30, 31]

  /** The month-length table of a Gregorian year, indexed by month 1..12. */
  function MonthLengths(year: int): (t: seq<int>)
    ensures |t| == 13
  {
    if IsGregorianLeapYear(year) then GregorianMonthDays[2 := 29] else GregorianMonthDays
  }

  /** Days in a Gregorian month. */
  function DaysInMonth(year: int, month: int): int
    requires 1 <= month <= 12
  {
    MonthLengths(year)[month]
  }

  /** 5 to 14 October 1582, the days the reform skipped. */
  predicate InReformGap(year: int, month: int, day: int) {
    year == 1582 && month == 10 && 5 <= day <= 14
  }

  /** A date of the Gregorian calendar as the validator understands it. */
  predicate IsGregorianDate(year: int, month: int, day: int) {
    && year >= 1 && 1 <= month <= 12
    && 1 <= day <= DaysInMonth(year, month)
    && !InReformGap(year, month, day)
  }

  /**
   * `_validate_gregorian_date`: no message exactly for a valid date; the reform gap
   * is reported before the day limit, and the day-limit message of February says
   * whether the year is leap.
   */
  function ValidateGregorian(year: int, month: int, day: int): (r: Option<GregorianError>)
    ensures r == None <==> IsGregorianDate(year, month, day)
    ensures year <= 0 ==> r == Some(GregorianYearNotPositive(year))
    ensures year > 0 && month <= 0 ==> r == Some(GregorianMonthNotPositive(month))
    ensures year > 0 && month > 0 && day <= 0 ==> r == Some(GregorianDayNotPositive(day))
    ensures year > 0 && month > 12 && day > 0 ==> r == Some(GregorianMonthAbove12(month))
    ensures year > 0 && 1 <= month <= 12 && InReformGap(year, month, day) ==> r == Some(SkippedByReform)
    ensures year > 0 && 1 <= month <= 12 && !InReformGap(year, month, day) && day > DaysInMonth(year, month) ==>
      r == Some(DayAboveMonthLength(month, DaysInMonth(year, month), year,
                                    if month == 2 then Some(IsGregorianLeapYear(year)) else None, day))
  {
    if year <= 0 then Some(GregorianYearNotPositive(year))
    else if month <= 0 then Some(GregorianMonthNotPositive(month))
    else if day <= 0 then Some(GregorianDayNotPositive(day))
    else if month > 12 then Some(GregorianMonthAbove12(month))
    else
      var daysInMonth := MonthLengths(year);
      if InReformGap(year, month, day) then Some(SkippedByReform)
      else
        var maxDays := daysInMonth[month];
        if day > maxDays then
          var leapInfo := if month == 2 then Some(IsGregorianLeapYear(year)) else None;
          Some(DayAboveMonthLength(month, maxDays, year, leapInfo, day))
        else None
  }

  // ---------------------------------------------------------------------------
  // What `datetime.date(year, month, day)` accepts

  /** `datetime.MAXYEAR`. */
  const MaxYear := 9999

  /** A date Python's `datetime.date` can represent (proleptic Gregorian, no reform gap). */
  predicate IsDatetimeDate(d: Date) {
    1 <= d.year <= MaxYear && 1 <= d.month <= 12 && 1 <= d.day <= DaysInMonth(d.year, d.month)
  }

  /** The range of a 32-bit C `int`, into which `datetime.date` first reads each argument. */
  const IntMin := -0x8000_0000
  const IntMax := 0x7FFF_FFFF

  predicate FitsCInt(n: int) {
    IntMin <= n <= IntMax
  }

  /**
   * The first step of the `datetime.date` constructor: it reads year, month and day,
   * in that order, as C `int`s, and the first that does not fit raises OverflowError
   * (not a ValueError) before any range check.
   */
  function ArgumentOverflow(d: Date): (r: Option<int>)
    ensures r.None? <==> FitsCInt(d.year) && FitsCInt(d.month) && FitsCInt(d.day)
    ensures r.Some? ==> !FitsCInt(r.value)
    ensures r.Some? && FitsCInt(d.year) ==> r.value != d.year
    ensures IsDatetimeDate(d) ==> r.None?
  {
    if !FitsCInt(d.year) then Some(d.year)
    else if !FitsCInt(d.month) then Some(d.month)
    else if !FitsCInt(d.day) then Some(d.day)
    else None
  }

  /**
   * The range checks of the `datetime.date` constructor once its arguments are read,
   * in its order: year, month, day.
   */
  function DatetimeCheck(d: Date): (r: Option<DatetimeError>)
    ensures r == None <==> IsDatetimeDate(d)
    ensures r.Some? && r.value.YearOutOfRange? ==> r.value.year == d.year && !(1 <= d.year <= MaxYear)
  {
    if d.year < 1 || d.year > MaxYear then Some(YearOutOfRange(d.year))
    else if d.month < 1 || d.month > 12 then Some(MonthOutOfRange)
    else if d.day < 1 || d.day > DaysInMonth(d.year, d.month) then Some(DayOutOfRange)
    else None
  }

  // ---------------------------------------------------------------------------
  // The scan both conversions run over a month-length table

  /** Where a scan stopped: in a slot with what remained of the count, or past the table. */
  datatype Stop = Found(slot: nat, remainder: int) | Exhausted

  /** From slot `from` on, subtract each slot's length from `count` until what is left fits in the slot. */
  function Scan(slots: seq<int>, from: nat, count: int): Stop
    requires from <= |slots|
    decreases |slots| - from
  {
    if from == |slots| then Exhausted
    else if count <= slots[from] then Found(from, count)
    else Scan(slots, from + 1, count - slots[from])
  }

  /**
   * A scan that finds a slot stops inside the table, with a remainder that fits in
   * the slot; from a positive count the remainder is positive.
   */
  lemma {:induction false} ScanLandsInSlot(slots: seq<int>, from: nat, count: int)
    requires from <= |slots|
    ensures var s := Scan(slots, from, count);
      s.Found? ==> from <= s.slot < |slots| && s.remainder <= slots[s.slot]
    ensures var s := Scan(slots, from, count);
      s.Found? && count >= 1 ==> s.remainder >= 1
    decreases |slots| - from
  {
    if from < |slots| && count > slots[from] {
      ScanLandsInSlot(slots, from + 1, count - slots[from]);
    }
  }

  /** The sum of a sequence. */
  function Sum(s: seq<int>): int {
    if s == [] then 0 else s[0] + Sum(s[1..])
  }

  /** Adding one more element at the end of a sequence adds it to the sum. */
  lemma {:induction false} SumSnoc(s: seq<int>, x: int)
    ensures Sum(s + [x]) == Sum(s) + x
  {
    if s != [] {
      SumSnoc(s[1..], x);
      assert (s + [x])[1..] == s[1..] + [x];
    }
  }

  // ---------------------------------------------------------------------------
  // Ethiopian -> Gregorian (to_gregorian)

  /**
   * `gregorian_months` of `to_gregorian`: slot 0 is an empty August, slots 1..13
   * run from September to the next September.
   */
  const GregorianSlots: seq<int> := [0, 30, 31, 30, 31, 31, 28, 31, 30, 31, 30, 31, 31, 30]

  /** `order` of `to_gregorian`: the Gregorian month of each slot. */
  const GregorianSlotMonth: seq<int> := [8, 9, 10, 11, 12, 1, 2, 3, 4, 5, 6, 7, 8, 9]

  /** The day of the Ethiopian year, counting from 1 on 1 Meskerem. */
  function EthiopianDayOfYear(month: int, day: int): int {
    (month - 1) * 30 + day
  }

  /** The early-year branch that aligns with the Julian calendar. */
  predicate JulianAligned(year: int, month: int, day: int) {
    EthiopianDayOfYear(month, day) <= 37 && year <= 1575
  }

  /** The slot table after its fix-ups: February of `year + 8`, and August widened on the Julian branch. */
  function GregorianSlotsFor(year: int, julian: bool): (t: seq<int>)
    ensures |t| == 14
  {
    GregorianSlots[6 := if IsGregorianLeapYear(year + 8) then 29 else 28][0 := if julian then 31 else 0]
  }

  /** `until` of `to_gregorian` once it has been adjusted and before the scan. */
  function GregorianDayCount(year: int, month: int, day: int): int {
    EthiopianDayOfYear(month, day)
    + (if JulianAligned(year, month, day) then 28 else NewYearOffset(year) - 1)
    + (if IsEthiopianLeapYear(year) then 1 else 0)
  }

  /** The (year, month, day) that `to_gregorian` hands to `datetime.date`. */
  function GregorianFields(year: int, month: int, day: int): Date {
    var slots := GregorianSlotsFor(year, JulianAligned(year, month, day));
    var count := GregorianDayCount(year, month, day);
    var stop := Scan(slots, 0, count);
    ScanLandsInSlot(slots, 0, count);
    var slot := if stop.Found? then stop.slot else |slots| - 1;
    var gregorianDay := if stop.Found? then stop.remainder else count;
    Date(year + 7 + (if slot > 4 then 1 else 0), GregorianSlotMonth[slot], gregorianDay)
  }

  /**
   * `to_gregorian`: an invalid Ethiopian date fails with the validator's message
   * before any arithmetic; a date is returned only when `datetime.date` accepts it,
   * and a field too large for a C `int` overflows instead of failing.
   */
  function GregorianOf(year: int, month: int, day: int): (r: Conversion)
    ensures ValidateEthiopian(year, month, day).Some? ==>
      r == Failed(InvalidEthiopian(ValidateEthiopian(year, month, day).value))
    ensures r.Converted? ==> IsEthiopianDate(year, month, day) && IsDatetimeDate(r.date)
    ensures r.Overflowed? ==> IsEthiopianDate(year, month, day) && !FitsCInt(r.argument)
  {
    match ValidateEthiopian(year, month, day)
    case Some(e) => Failed(InvalidEthiopian(e))
    case None =>
      var g := GregorianFields(year, month, day);
      match ArgumentOverflow(g)
      case Some(n) => Overflowed(n)
      case None =>
        match DatetimeCheck(g)
        case Some(e) => Failed(NotADatetime(e))
        case None => Converted(g)
  }

  /**
   * The month-length table of `to_gregorian` after its fix-ups, and the day count
   * it scans: 29 days in the February slot before a Gregorian leap year, and the
   * Julian-calendar alignment of the first slot and the count up to 1575.
   */
  method FixedGregorianSlots(year: int, month: int, day: int) returns (gregorianMonths: array<int>, until: int)
    ensures fresh(gregorianMonths)
    ensures gregorianMonths[..] == GregorianSlotsFor(year, JulianAligned(year, month, day))
    ensures until == GregorianDayCount(year, month, day)
  {
    var newYearDay := NewYearOffset(year);
    var gregorianYear := year + 7;
    gregorianMonths := new int[14] [0, 30, 31, 30, 31, 31, 28, 31, 30, 31, 30, 31, 31, 30];
    assert gregorianMonths[..] == GregorianSlots;

    var nextYear := gregorianYear + 1;
    if IsGregorianLeapYear(nextYear) {
      gregorianMonths[6] := 29;
    }
    assert gregorianMonths[..] == GregorianSlots[6 := if IsGregorianLeapYear(year + 8) then 29 else 28];

    until := (month - 1) * 30 + day;
    if until <= 37 && year <= 1575 {
      until := until + 28;
      gregorianMonths[0] := 31;
    } else {
      until := until + newYearDay - 1;
    }
    if (year - 1) % 4 == 3 {
      until := until + 1;
    }
  }

  /** `to_gregorian` as the Python code runs it, on a mutable month-length table. */
  method ToGregorian(year: int, month: int, day: int) returns (r: Conversion)
    ensures r == GregorianOf(year, month, day)
  {
    var errorMessage := ValidateEthiopian(year, month, day);
    if errorMessage.Some? {
      return Failed(InvalidEthiopian(errorMessage.value));
    }

    var gregorianMonths, until := FixedGregorianSlots(year, month, day);
    ghost var slots := gregorianMonths[..];
    ghost var count := until;
    var gregorianYear := year + 7;

    var m := 0;
    var gregorianDate := until;
    var i := 0;
    while i < gregorianMonths.Length
      invariant 0 <= i <= gregorianMonths.Length
      invariant gregorianMonths[..] == slots
      invariant Scan(slots, i, until) == Scan(slots, 0, count)
      invariant gregorianDate == count
      invariant m == (if i == 0 then 0 else i - 1)
    {
      if until <= gregorianMonths[i] {
        m := i;
        gregorianDate := until;
        break;
      }
      m := i;
      until := until - gregorianMonths[i];
      i := i + 1;
    }

    if m > 4 {
      gregorianYear := gregorianYear + 1;
    }
    var order := [8, 9, 10, 11, 12, 1, 2, 3, 4, 5, 6, 7, 8, 9];
    var gregorianMonth := order[m];

    var g := Date(gregorianYear, gregorianMonth, gregorianDate);
    assert g == GregorianFields(year, month, day);
    var overflow := ArgumentOverflow(g);
    if overflow.Some? {
      return Overflowed(overflow.value);
    }
    var rejected := DatetimeCheck(g);
    if rejected.Some? {
      return Failed(NotADatetime(rejected.value));
    }
    return Converted(g);
  }

  // ---------------------------------------------------------------------------
  // Gregorian -> Ethiopian (to_ethiopian)

  /**
   * `ethiopian_months` of `to_ethiopian`: slot 0 is never scanned; slots 1..14 run
   * from the part of Tahsas in January to the next Tahsas, slot 10 being Pagume.
   */
  const EthiopianSlots: seq<int> := [0, 30, 30, 30, 30, 30, 30, 30, 30, 30, 5, 30, 30, 30, 30]

  /** `order` of `to_ethiopian`: the Ethiopian month of each slot. */
  const EthiopianSlotMonth: seq<int> := [0, 4, 5, 6, 7, 8, 9, 10, 11, 12, 13, 1, 2, 3, 4]

  /** The day of the Gregorian year: the full months before `month`, plus `day`. */
  function GregorianDayOfYear(year: int, month: int, day: int): int
    requires 1 <= month <= 12
  {
    Sum(MonthLengths(year)[1..month]) + day
  }

  /** Whether `to_ethiopian` uses the pre-reform Tahsas constant: before 1582, or in 1582 up to day 277. */
  predicate BeforeReform(year: int, dayOfYear: int) {
    year < 1582 || (year == 1582 && dayOfYear <= 277)
  }

  /** `tahissas` of `to_ethiopian` as the scan sees it. */
  function Tahsas(year: int, dayOfYear: int): int {
    if BeforeReform(year, dayOfYear) then
      if (year - 8) % 4 == 0 then 26 else 25
    else
      NewYearOffset(year - 8) - 3
  }

  /** The slot table after its fix-ups: Pagume's length, then the Tahsas slots. */
  function EthiopianSlotsFor(year: int, dayOfYear: int): (t: seq<int>)
    ensures |t| == 15
  {
    var slots := EthiopianSlots[10 := if IsEthiopianLeapYear(year - 8) then 6 else 5];
    if BeforeReform(year, dayOfYear) then
      slots[1 := 0][2 := Tahsas(year, dayOfYear)]
    else
      slots[1 := Tahsas(year, dayOfYear)]
  }

  /**
   * The triple `to_ethiopian` returns: its month is one of 1..13, and its year is
   * the Gregorian year minus 8, or minus 7 from the slots after Pagume on.
   */
  function EthiopianFields(year: int, month: int, day: int): (e: Date)
    requires 1 <= month <= 12
    ensures 1 <= e.month <= 13 && year - 8 <= e.year <= year - 7
  {
    var n := GregorianDayOfYear(year, month, day);
    var tahsas := Tahsas(year, n);
    var slots := EthiopianSlotsFor(year, n);
    var stop := Scan(slots, 1, n);
    ScanLandsInSlot(slots, 1, n);
    var slot := if stop.Found? then stop.slot else |slots| - 1;
    var ethiopianDay :=
      match stop
      case Exhausted => n
      case Found(i, remainder) =>
        if i == 1 || slots[i] == 0 then remainder + (30 - tahsas) else remainder;
    Date(year - 8 + (if slot > 10 then 1 else 0), EthiopianSlotMonth[slot], ethiopianDay)
  }

  /**
   * `to_ethiopian`: it fails exactly on the dates its validator rejects, with the
   * validator's message; otherwise the month is one of 1..13 and the year is the
   * Gregorian year minus 8, or minus 7 late in the Gregorian year.
   */
  function EthiopianOf(year: int, month: int, day: int): (r: Conversion)
    ensures ValidateGregorian(year, month, day).Some? ==>
      r == Failed(InvalidGregorian(ValidateGregorian(year, month, day).value))
    ensures r.Converted? <==> IsGregorianDate(year, month, day)
    ensures r.Converted? ==> 1 <= r.date.month <= 13 && year - 8 <= r.date.year <= year - 7
    ensures !r.Overflowed?
  {
    match ValidateGregorian(year, month, day)
    case Some(e) => Failed(InvalidGregorian(e))
    case None => Converted(EthiopianFields(year, month, day))
  }

  /**
   * The first loop of `to_ethiopian`: the month lengths of the year, with 29 days
   * in February of a leap year, summed up to the month, plus the day.
   */
  method CountDayOfYear(year: int, month: int, day: int) returns (until: int)
    requires 1 <= month <= 12
    ensures until == GregorianDayOfYear(year, month, day)
  {
    var gregorianMonths := new int[13] [0, 31, 28, 31, 30, 31, 30, 31, 31, 30, 31, 30, 31];
    assert gregorianMonths[..] == GregorianMonthDays;
    if IsGregorianLeapYear(year) {
      gregorianMonths[2] := 29;
    }
    assert gregorianMonths[..] == MonthLengths(year);

    until := 0;
    var i := 1;
    while i < month
      invariant 1 <= i <= month
      invariant gregorianMonths[..] == MonthLengths(year)
      invariant until == Sum(gregorianMonths[1..i])
    {
      assert gregorianMonths[1..i + 1] == gregorianMonths[1..i] + [gregorianMonths[i]];
      SumSnoc(gregorianMonths[1..i], gregorianMonths[i]);
      until := until + gregorianMonths[i];
      i := i + 1;
    }
    until := until + day;
  }

  /**
   * The slot table of `to_ethiopian` after its fix-ups, for the day of the year
   * `until`: Pagume's length for the Ethiopian year, then the Tahsas slots, with
   * `tahissas` the length the scan credits to Tahsas.
   */
  method FixedEthiopianSlots(year: int, until: int) returns (ethiopianMonths: array<int>, tahissas: int)
    ensures fresh(ethiopianMonths)
    ensures ethiopianMonths[..] == EthiopianSlotsFor(year, until)
    ensures tahissas == Tahsas(year, until)
  {
    ethiopianMonths := new int[15] [0, 30, 30, 30, 30, 30, 30, 30, 30, 30, 5, 30, 30, 30, 30];
    assert ethiopianMonths[..] == EthiopianSlots;

    var ethiopianYear := year - 8;
    if IsEthiopianLeapYear(ethiopianYear) {
      ethiopianMonths[10] := 6;
    } else {
      ethiopianMonths[10] := 5;
    }
    assert ethiopianMonths[..] == EthiopianSlots[10 := if IsEthiopianLeapYear(year - 8) then 6 else 5];

    var newYearDay := NewYearOffset(year - 8);

    tahissas := if ethiopianYear % 4 == 0 then 26 else 25;
    if year < 1582 {
      ethiopianMonths[1] := 0;
      ethiopianMonths[2] := tahissas;
    } else if until <= 277 && year == 1582 {
      ethiopianMonths[1] := 0;
      ethiopianMonths[2] := tahissas;
    } else {
      tahissas := newYearDay - 3;
      ethiopianMonths[1] := tahissas;
    }
  }

  /** `to_ethiopian` as the Python code runs it, on two mutable month-length tables. */
  method ToEthiopian(year: int, month: int, day: int) returns (r: Conversion)
    ensures r == EthiopianOf(year, month, day)
  {
    var errorMessage := ValidateGregorian(year, month, day);
    if errorMessage.Some? {
      return Failed(InvalidGregorian(errorMessage.value));
    }

    var until := CountDayOfYear(year, month, day);
    ghost var n := until;
    var ethiopianMonths, tahissas := FixedEthiopianSlots(year, until);
    ghost var slots := ethiopianMonths[..];
    var ethiopianYear := year - 8;
    ghost var e := EthiopianFields(year, month, day);

    var m := 0;
    var ethiopianDate := until;
    var k := 1;
    while k < ethiopianMonths.Length
      invariant 1 <= k <= ethiopianMonths.Length
      invariant ethiopianMonths[..] == slots
      invariant Scan(slots, k, until) == Scan(slots, 1, n)
      invariant ethiopianDate == n
      invariant m == k - 1
    {
      m := k;
      if until <= ethiopianMonths[m] {
        if m == 1 || ethiopianMonths[m] == 0 {
          ethiopianDate := until + (30 - tahissas);
        } else {
          ethiopianDate := until;
        }
        break;
      }
      until := until - ethiopianMonths[m];
      k := k + 1;
    }

    ghost var stop := Scan(slots, 1, n);
    assert stop == if k < ethiopianMonths.Length then Found(m, until) else Exhausted;
    assert ethiopianDate == match stop
      case Exhausted => n
      case Found(i, remainder) => if i == 1 || slots[i] == 0 then remainder + (30 - tahissas) else remainder;
    if m > 10 {
      ethiopianYear := ethiopianYear + 1;
    }
    var order := [0, 4, 5, 6, 7, 8, 9, 10, 11, 12, 13, 1, 2, 3, 4];
    var ethiopianMonth := order[m];
    assert Date(ethiopianYear, ethiopianMonth, ethiopianDate) == e;
    return Converted(Date(ethiopianYear, ethiopianMonth, ethiopianDate));
  }
}
