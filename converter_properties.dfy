/**
 * What the converter of converter.py guarantees, and where it does not: the
 * scan as a first-fit search, the leap-year rules, the reform gap, the ranges
 * on which each conversion yields a valid date of the other calendar, and the
 * documented and the surprising concrete conversions.
 */
module ConverterProperties {
  import opened Wrappers
  import opened Converter

  // ---------------------------------------------------------------------------
  // The scan

  /**
   * The scan is a first-fit search: every slot it passes is smaller than what was
   * left of the count on reaching it, and the remainder it stops with is the count
   * minus the slots passed.
   */
  lemma {:induction false} ScanFirstFit(slots: seq<int>, from: nat, count: int)
    requires from <= |slots|
    ensures var stop := Scan(slots, from, count);
      stop.Found? ==> from <= stop.slot < |slots| && stop.remainder == count - Sum(slots[from..stop.slot])
    ensures var stop := Scan(slots, from, count);
      forall j :: from <= j < (if stop.Found? then stop.slot else |slots|) ==>
        count - Sum(slots[from..j]) > slots[j]
    decreases |slots| - from
  {
    if from < |slots| && count > slots[from] {
      ScanFirstFit(slots, from + 1, count - slots[from]);
      forall j | from + 1 <= j <= |slots|
        ensures Sum(slots[from..j]) == slots[from] + Sum(slots[from + 1..j])
      {
        assert slots[from..j][1..] == slots[from + 1..j];
      }
    }
  }

  /** A positive count runs past the whole table only when it exceeds the table's total. */
  lemma {:induction false} ScanExhaustedExceedsTotal(slots: seq<int>, from: nat, count: int)
    requires from <= |slots| && count >= 1
    requires Scan(slots, from, count) == Exhausted
    ensures count > Sum(slots[from..])
    decreases |slots| - from
  {
    if from < |slots| {
      ScanExhaustedExceedsTotal(slots, from + 1, count - slots[from]);
      assert slots[from..][1..] == slots[from + 1..];
    }
  }

  /** A slot the count left over does not fit in is passed, and the scan goes on with the rest. */
  lemma ScanPasses(slots: seq<int>, from: nat, count: int)
    requires from < |slots| && count > slots[from]
    ensures Scan(slots, from, count) == Scan(slots, from + 1, count - slots[from])
  {
  }

  /** The sum of two sequences joined is the sum of their sums. */
  lemma {:induction false} SumConcat(a: seq<int>, b: seq<int>)
    ensures Sum(a + b) == Sum(a) + Sum(b)
  {
    if a == [] {
      assert a + b == b;
    } else {
      SumConcat(a[1..], b);
      assert (a + b)[1..] == a[1..] + b;
    }
  }

  // ---------------------------------------------------------------------------
  // Leap years and validation

  /** Pagume may have a sixth day exactly in an Ethiopian leap year. */
  lemma PagumeSixthDayIffLeap(year: int)
    requires year >= 1
    ensures ValidateEthiopian(year, 13, 6) == None <==> IsEthiopianLeapYear(year)
    ensures !IsEthiopianLeapYear(year) ==>
      ValidateEthiopian(year, 13, 6) == Some(PagumeDayTooLarge(5, false, year, 6))
  {
  }

  /** With the code's leap rule, the six-day Pagume falls in 2016, not in 2015. */
  lemma PagumeSixthDayIn2016Not2015()
    ensures ValidateEthiopian(2016, 13, 6) == None
    ensures GregorianOf(2015, 13, 6) == Failed(InvalidEthiopian(PagumeDayTooLarge(5, false, 2015, 6)))
  {
  }

  /** 29 February is accepted exactly in a Gregorian leap year. */
  lemma FebruaryTwentyNinthIffLeap(year: int)
    requires year >= 1
    ensures ValidateGregorian(year, 2, 29) == None <==> IsGregorianLeapYear(year)
    ensures !IsGregorianLeapYear(year) ==>
      ValidateGregorian(year, 2, 29) == Some(DayAboveMonthLength(2, 28, year, Some(false), 29))
  {
  }

  /** 5 to 14 October 1582 fail with the reform message; the days either side convert. */
  lemma ReformGapRejected(day: int)
    ensures 5 <= day <= 14 ==> EthiopianOf(1582, 10, day) == Failed(InvalidGregorian(SkippedByReform))
    ensures EthiopianOf(1582, 10, 4).Converted? && EthiopianOf(1582, 10, 15).Converted?
  {
  }

  /** Python's `datetime.date` accepts every validated Gregorian date up to its year 9999. */
  lemma DatetimeAcceptsValidGregorian(d: Date)
    ensures IsGregorianDate(d.year, d.month, d.day) && d.year <= MaxYear ==> DatetimeCheck(d) == None
    ensures DatetimeCheck(d) == None && !InReformGap(d.year, d.month, d.day) ==>
      IsGregorianDate(d.year, d.month, d.day)
  {
  }

  // ---------------------------------------------------------------------------
  // Ethiopian -> Gregorian

  /** The table `to_gregorian` scans adds up to 395 days, plus August and the leap day. */
  lemma GregorianSlotsTotal(year: int, julian: bool)
    ensures var slots := GregorianSlotsFor(year, julian);
      Sum(slots) == 367 + slots[0] + slots[6]
  {
    var slots := GregorianSlotsFor(year, julian);
    var autumn, spring := [30, 31, 30, 31, 31], [31, 30, 31, 30, 31, 31, 30];
    assert slots == [slots[0]] + autumn + [slots[6]] + spring;
    SumConcat([slots[0]] + autumn + [slots[6]], spring);
    SumConcat([slots[0]] + autumn, [slots[6]]);
    SumConcat([slots[0]], autumn);
    assert Sum(autumn) == 153 && Sum(spring) == 214;
  }

  /** `t` is `to_gregorian`'s table with `first` days in slot 0 and `february` in slot 6. */
  predicate GregorianTable(t: seq<int>, first: int, february: int) {
    && |t| == 14 && t[0] == first && t[1] == 30 && t[2] == 31 && t[3] == 30 && t[4] == 31
    && t[5] == 31 && t[6] == february && t[7] == 31 && t[8] == 30 && t[9] == 31 && t[10] == 30
    && t[11] == 31 && t[12] == 31 && t[13] == 30
  }

  /** The slots of `to_gregorian`'s table one by one. */
  lemma GregorianSlotsTable(year: int, julian: bool)
    ensures GregorianTable(GregorianSlotsFor(year, julian), if julian then 31 else 0,
      if IsGregorianLeapYear(year + 8) then 29 else 28)
  {
  }

  /** `t` is `to_ethiopian`'s table with the given Tahsas slots 1 and 2 and Pagume slot 10. */
  predicate EthiopianTable(t: seq<int>, first: int, second: int, pagume: int) {
    && |t| == 15 && t[0] == 0 && t[1] == first && t[2] == second && t[3] == 30 && t[4] == 30
    && t[5] == 30 && t[6] == 30 && t[7] == 30 && t[8] == 30 && t[9] == 30 && t[10] == pagume
    && t[11] == 30 && t[12] == 30 && t[13] == 30 && t[14] == 30
  }

  /** The slots of `to_ethiopian`'s table one by one, before and after the reform. */
  lemma EthiopianSlotsTable(year: int, dayOfYear: int)
    ensures var before := BeforeReform(year, dayOfYear);
      EthiopianTable(EthiopianSlotsFor(year, dayOfYear),
        if before then 0 else Tahsas(year, dayOfYear),
        if before then Tahsas(year, dayOfYear) else 30,
        if IsEthiopianLeapYear(year - 8) then 6 else 5)
  {
  }

  /** Each slot of `to_gregorian`'s table fits in the Gregorian month it stands for. */
  lemma GregorianSlotFitsMonth(year: int, julian: bool, i: int)
    requires 0 <= i < 14
    ensures var month := GregorianSlotMonth[i];
      && 1 <= month <= 12
      && GregorianSlotsFor(year, julian)[i] <= DaysInMonth(year + (if i > 4 then 8 else 7), month)
  {
  }

  /**
   * Where `to_gregorian` stops: the first slot the adjusted day count fits in; the
   * day is what is left of the count after the slots before it, between 1 and the
   * slot's length; the year is the Ethiopian year plus 7, plus one more from January on.
   */
  lemma {:induction false} GregorianFieldsFirstFit(year: int, month: int, day: int)
    requires IsEthiopianDate(year, month, day)
    ensures var slots := GregorianSlotsFor(year, JulianAligned(year, month, day));
      var count := GregorianDayCount(year, month, day);
      var stop := Scan(slots, 0, count);
      var g := GregorianFields(year, month, day);
      && count >= 1
      && (stop.Found? ==>
        && stop.slot < |slots|
        && g.day == count - Sum(slots[..stop.slot])
        && 1 <= g.day <= slots[stop.slot]
        && g.year == year + (if stop.slot > 4 then 8 else 7)
        && g.month == GregorianSlotMonth[stop.slot])
      && (stop.Exhausted? ==> g == Date(year + 8, 9, count))
  {
    var slots := GregorianSlotsFor(year, JulianAligned(year, month, day));
    var count := GregorianDayCount(year, month, day);
    if year > 1575 {
      CenturyTermsFrom1500(year);
    }
    ScanFirstFit(slots, 0, count);
    ScanLandsInSlot(slots, 0, count);
    assert slots[0..] == slots;
  }

  /** From the year 1500 on, the century terms of the new-year offset add up to at least twelve. */
  lemma CenturyTermsFrom1500(year: int)
    requires year >= 1500
    ensures year / 100 >= 15 && year / 100 - year / 400 >= 12
  {
    var c := year / 100;
    assert year / 400 == c / 4;
  }

  /** Up to the year 3000 the adjusted day count stays within the 395 days of the table. */
  lemma GregorianDayCountAtMost393(year: int, month: int, day: int)
    requires IsEthiopianDate(year, month, day) && year <= 3000
    ensures GregorianDayCount(year, month, day) <= 393
  {
    assert year / 100 <= 30 && year / 400 >= 0;
    assert EthiopianDayOfYear(month, day) <= (if IsEthiopianLeapYear(year) then 366 else 365);
  }

  /** Up to the year 3000 the scan of `to_gregorian` always stops in a slot. */
  lemma {:induction false} GregorianScanFinds(year: int, month: int, day: int)
    requires IsEthiopianDate(year, month, day) && year <= 3000
    ensures Scan(GregorianSlotsFor(year, JulianAligned(year, month, day)), 0,
                 GregorianDayCount(year, month, day)).Found?
  {
    var julian := JulianAligned(year, month, day);
    var slots := GregorianSlotsFor(year, julian);
    var count := GregorianDayCount(year, month, day);
    GregorianFieldsFirstFit(year, month, day);
    GregorianDayCountAtMost393(year, month, day);
    GregorianSlotsTotal(year, julian);
    assert slots[0..] == slots;
    if Scan(slots, 0, count) == Exhausted {
      ScanExhaustedExceedsTotal(slots, 0, count);
    }
  }

  /**
   * Every valid Ethiopian date up to the year 3000 converts, and to a date that
   * `_validate_gregorian_date` accepts: in particular never into 5..14 October 1582.
   */
  lemma {:induction false} GregorianOfIsTotal(year: int, month: int, day: int)
    requires IsEthiopianDate(year, month, day) && year <= 3000
    ensures GregorianOf(year, month, day).Converted?
    ensures var g := GregorianOf(year, month, day).date; IsGregorianDate(g.year, g.month, g.day)
  {
    var julian := JulianAligned(year, month, day);
    var slots := GregorianSlotsFor(year, julian);
    var count := GregorianDayCount(year, month, day);
    GregorianFieldsFirstFit(year, month, day);
    GregorianScanFinds(year, month, day);
    var stop := Scan(slots, 0, count);
    var g := GregorianFields(year, month, day);
    GregorianSlotFitsMonth(year, julian, stop.slot);
    assert DatetimeCheck(g) == None;
    assert !InReformGap(g.year, g.month, g.day) by {
      if g.year == 1582 && g.month == 10 {
        assert stop.slot == 2 && year == 1575;
        assert slots[..2] == [slots[0]] + [slots[1]];
        SumConcat([slots[0]], [slots[1]]);
      }
    }
  }

  /**
   * `to_gregorian` overflows exactly for a valid Ethiopian date whose Gregorian year
   * is beyond a C `int`: the month it computes is always one of 1..12 and the day
   * always fits. From the Ethiopian year 2147483640 on, every valid date overflows.
   */
  lemma {:induction false} OverflowIffYearBeyondCInt(year: int, month: int, day: int)
    ensures GregorianOf(year, month, day).Overflowed? <==>
      IsEthiopianDate(year, month, day) && GregorianFields(year, month, day).year > IntMax
    ensures IsEthiopianDate(year, month, day) && year > IntMax - 7 ==>
      GregorianOf(year, month, day).Overflowed?
  {
    if IsEthiopianDate(year, month, day) {
      var julian := JulianAligned(year, month, day);
      var slots := GregorianSlotsFor(year, julian);
      var count := GregorianDayCount(year, month, day);
      var stop := Scan(slots, 0, count);
      var g := GregorianFields(year, month, day);
      GregorianFieldsFirstFit(year, month, day);
      if stop.Found? {
        GregorianSlotFitsMonth(year, julian, stop.slot);
        GregorianSlotsTable(year, julian);
        assert g.day <= 31;
      } else {
        assert g.day == count <= 420 + year / 100;
      }
      assert FitsCInt(g.month) && (g.year <= IntMax ==> FitsCInt(g.day));
    }
  }

  // ---------------------------------------------------------------------------
  // Gregorian -> Ethiopian

  /** One more month added to the months from January on. */
  lemma PrefixSumSnoc(t: seq<int>, k: int)
    requires 1 <= k < |t|
    ensures Sum(t[1..k + 1]) == Sum(t[1..k]) + t[k]
  {
    assert t[1..k + 1] == t[1..k] + [t[k]];
    SumSnoc(t[1..k], t[k]);
  }

  /** Summing more months from January on never gives less. */
  lemma {:induction false} PrefixSumMonotone(t: seq<int>, i: int, j: int)
    requires 1 <= i <= j <= |t|
    requires forall k :: 1 <= k < |t| ==> t[k] >= 0
    ensures Sum(t[1..i]) <= Sum(t[1..j])
    decreases j - i
  {
    if i < j {
      PrefixSumMonotone(t, i, j - 1);
      PrefixSumSnoc(t, j - 1);
    }
  }

  /** The day of the year of a valid date lies after the months before it and within its own. */
  lemma DayOfYearWithinMonth(year: int, month: int, day: int)
    requires IsGregorianDate(year, month, day)
    ensures var t := MonthLengths(year);
      Sum(t[1..month]) < GregorianDayOfYear(year, month, day) <= Sum(t[1..month + 1])
  {
    PrefixSumSnoc(MonthLengths(year), month);
  }

  /**
   * The days before the first of each month: 0 before January, 31 before
   * February, and from March on one more in a leap year, up to the whole year.
   */
  lemma {:induction false} MonthStarts(year: int)
    ensures var t := MonthLengths(year); var leap := if IsGregorianLeapYear(year) then 1 else 0;
      && Sum(t[1..1]) == 0 && Sum(t[1..2]) == 31 && Sum(t[1..3]) == 59 + leap
      && Sum(t[1..4]) == 90 + leap && Sum(t[1..5]) == 120 + leap && Sum(t[1..6]) == 151 + leap
      && Sum(t[1..7]) == 181 + leap && Sum(t[1..8]) == 212 + leap && Sum(t[1..9]) == 243 + leap
      && Sum(t[1..10]) == 273 + leap && Sum(t[1..11]) == 304 + leap && Sum(t[1..12]) == 334 + leap
      && Sum(t[1..13]) == 365 + leap
  {
    var t := MonthLengths(year);
    assert t[1..1] == [];
    PrefixSumSnoc(t, 1);
    PrefixSumSnoc(t, 2);
    PrefixSumSnoc(t, 3);
    PrefixSumSnoc(t, 4);
    PrefixSumSnoc(t, 5);
    PrefixSumSnoc(t, 6);
    PrefixSumSnoc(t, 7);
    PrefixSumSnoc(t, 8);
    PrefixSumSnoc(t, 9);
    PrefixSumSnoc(t, 10);
    PrefixSumSnoc(t, 11);
    PrefixSumSnoc(t, 12);
  }

  /** A Gregorian year has 365 days, 366 in a leap year. */
  lemma YearLength(year: int)
    ensures Sum(MonthLengths(year)[1..13]) == if IsGregorianLeapYear(year) then 366 else 365
  {
    MonthStarts(year);
  }

  /** 31 December is day 365 of its year, or day 366 in a leap year. */
  lemma LastDayOfYear(year: int)
    ensures GregorianDayOfYear(year, 12, 31) == if IsGregorianLeapYear(year) then 366 else 365
  {
    MonthStarts(year);
  }

  /** Outside leap years the months before October have 273 days, and those before November 304. */
  lemma DaysBeforeOctober(year: int)
    requires !IsGregorianLeapYear(year)
    ensures Sum(MonthLengths(year)[1..10]) == 273 && Sum(MonthLengths(year)[1..11]) == 304
  {
    MonthStarts(year);
  }

  /** In 1582 the months before October have 273 days, and those before November 304. */
  lemma DaysBeforeOctober1582()
    ensures Sum(MonthLengths(1582)[1..10]) == 273 && Sum(MonthLengths(1582)[1..11]) == 304
  {
    DaysBeforeOctober(1582);
  }

  /** Outside leap years the 277th day of the year is 4 October. */
  lemma {:induction false} DayOfYearUpToOctober4(year: int, month: int, day: int)
    requires !IsGregorianLeapYear(year) && IsGregorianDate(year, month, day)
    ensures GregorianDayOfYear(year, month, day) <= 277 <==> month < 10 || (month == 10 && day <= 4)
  {
    var t := MonthLengths(year);
    DaysBeforeOctober(year);
    DayOfYearWithinMonth(year, month, day);
    if month < 10 {
      PrefixSumMonotone(t, month + 1, 10);
    } else if month > 10 {
      PrefixSumMonotone(t, 11, month);
    }
  }

  /** In 1582 the day of the year reaches 277 on 4 October: the pre-reform Tahsas ends there. */
  lemma BeforeReformEndsOnOctober4(month: int, day: int)
    requires IsGregorianDate(1582, month, day)
    ensures BeforeReform(1582, GregorianDayOfYear(1582, month, day)) <==> month < 10 || (month == 10 && day <= 4)
  {
    DayOfYearUpToOctober4(1582, month, day);
  }

  /** The day of a valid Gregorian date's year lies between 1 and the year's length. */
  lemma {:induction false} GregorianDayOfYearBounds(year: int, month: int, day: int)
    requires IsGregorianDate(year, month, day)
    ensures 1 <= GregorianDayOfYear(year, month, day) <= (if IsGregorianLeapYear(year) then 366 else 365)
  {
    var t := MonthLengths(year);
    DayOfYearWithinMonth(year, month, day);
    PrefixSumMonotone(t, 1, month);
    PrefixSumMonotone(t, month + 1, 13);
    YearLength(year);
  }

  /** The slots of `to_ethiopian`'s table after slot 0 add up to both Tahsas slots, Pagume and eleven slots of 30 days. */
  lemma EthiopianTableTotal(t: seq<int>, first: int, second: int, pagume: int)
    requires EthiopianTable(t, first, second, pagume)
    ensures Sum(t[1..]) == first + second + pagume + 330
  {
    assert t[1..1] == [];
    PrefixSumSnoc(t, 1); PrefixSumSnoc(t, 2); PrefixSumSnoc(t, 3); PrefixSumSnoc(t, 4);
    PrefixSumSnoc(t, 5); PrefixSumSnoc(t, 6); PrefixSumSnoc(t, 7); PrefixSumSnoc(t, 8);
    PrefixSumSnoc(t, 9); PrefixSumSnoc(t, 10); PrefixSumSnoc(t, 11); PrefixSumSnoc(t, 12);
    PrefixSumSnoc(t, 13); PrefixSumSnoc(t, 14);
    assert t[1..15] == t[1..];
  }

  /**
   * After the reform and up to the year 3000 the table `to_ethiopian` scans starts
   * with a Tahsas of 5 to 30 days, has no empty slot, and covers 370 days or more.
   */
  lemma EthiopianSlotsAfterReform(year: int, dayOfYear: int)
    requires 1582 <= year <= 3000 && !BeforeReform(year, dayOfYear)
    ensures var slots := EthiopianSlotsFor(year, dayOfYear);
      && 5 <= Tahsas(year, dayOfYear) <= 30
      && slots[1] == Tahsas(year, dayOfYear)
      && (forall i :: 1 <= i < 15 ==> slots[i] >= 5)
      && Sum(slots[1..]) >= 370
  {
    var tahsas := Tahsas(year, dayOfYear);
    assert 5 <= tahsas <= 30 by {
      CenturyTermsFrom1500(year - 8);
      assert (year - 8) / 100 <= 29;
    }
    EthiopianSlotsTable(year, dayOfYear);
    EthiopianTableTotal(EthiopianSlotsFor(year, dayOfYear), tahsas, 30,
      if IsEthiopianLeapYear(year - 8) then 6 else 5);
  }

  /**
   * From 15 October 1582 up to the year 3000 `to_ethiopian` yields a date that
   * `_validate_ethiopian_date` accepts.
   */
  lemma {:induction false} EthiopianOfValidAfterReform(year: int, month: int, day: int)
    requires IsGregorianDate(year, month, day) && year <= 3000
    requires !BeforeReform(year, GregorianDayOfYear(year, month, day))
    ensures EthiopianOf(year, month, day).Converted?
    ensures var e := EthiopianOf(year, month, day).date; IsEthiopianDate(e.year, e.month, e.day)
  {
    var n := GregorianDayOfYear(year, month, day);
    GregorianDayOfYearBounds(year, month, day);
    EthiopianSlotsAfterReform(year, n);
    var slots := EthiopianSlotsFor(year, n);
    if Scan(slots, 1, n) == Exhausted {
      ScanExhaustedExceedsTotal(slots, 1, n);
    }
    var stop := Scan(slots, 1, n);
    ScanLandsInSlot(slots, 1, n);
    var e := EthiopianFields(year, month, day);
    assert e.month == EthiopianSlotMonth[stop.slot];
    assert e.year == year - 8 + (if stop.slot > 10 then 1 else 0);
    assert 1 <= e.day <= 30 && (e.month == 13 ==> e.day <= slots[10]);
  }

  // ---------------------------------------------------------------------------
  // Concrete conversions

  /** A conversion to Gregorian whose scan stops in `slot` with `remainder` left. */
  lemma GregorianOfFound(year: int, month: int, day: int, slots: seq<int>, count: int, slot: nat, remainder: int)
    requires IsEthiopianDate(year, month, day)
    requires slots == GregorianSlotsFor(year, JulianAligned(year, month, day))
    requires count == GregorianDayCount(year, month, day)
    requires Scan(slots, 0, count) == Found(slot, remainder) && slot < |slots|
    ensures var g := Date(year + (if slot > 4 then 8 else 7), GregorianSlotMonth[slot], remainder);
      IsDatetimeDate(g) ==> GregorianOf(year, month, day) == Converted(g)
  {
  }

  /**
   * A conversion to Ethiopian whose scan stops in `slot` with `remainder` left; in
   * the Tahsas slot 1, or in an emptied slot, the day is moved on by 30 minus Tahsas.
   */
  lemma EthiopianOfFound(year: int, month: int, day: int, dayOfYear: int, slots: seq<int>, slot: nat, remainder: int)
    requires IsGregorianDate(year, month, day)
    requires dayOfYear == GregorianDayOfYear(year, month, day)
    requires slots == EthiopianSlotsFor(year, dayOfYear)
    requires Scan(slots, 1, dayOfYear) == Found(slot, remainder) && slot < |slots|
    ensures var shift := if slot == 1 || slots[slot] == 0 then 30 - Tahsas(year, dayOfYear) else 0;
      EthiopianOf(year, month, day) ==
        Converted(Date(year - 8 + (if slot > 10 then 1 else 0), EthiopianSlotMonth[slot], remainder + shift))
  {
  }

  /** A conversion to Ethiopian whose scan runs past the whole table. */
  lemma EthiopianOfExhausted(year: int, month: int, day: int, dayOfYear: int, slots: seq<int>)
    requires IsGregorianDate(year, month, day)
    requires dayOfYear == GregorianDayOfYear(year, month, day)
    requires slots == EthiopianSlotsFor(year, dayOfYear)
    requires Scan(slots, 1, dayOfYear) == Exhausted
    ensures EthiopianOf(year, month, day) == Converted(Date(year - 7, 4, dayOfYear))
  {
  }

  /** Ethiopian day 127 of a common-year table lands on day 5 of January. */
  lemma CommonYearScan127(t: seq<int>)
    requires GregorianTable(t, 0, 28)
    ensures Scan(t, 0, 127) == Found(5, 5)
  {
    ScanPasses(t, 0, 127);
    ScanPasses(t, 1, 127);
    ScanPasses(t, 2, 97);
    ScanPasses(t, 3, 66);
    ScanPasses(t, 4, 36);
  }

  /** Day 45 of the general table lands on day 15 of October. */
  lemma CommonYearScan45(t: seq<int>)
    requires GregorianTable(t, 0, 28)
    ensures Scan(t, 0, 45) == Found(2, 15)
  {
    ScanPasses(t, 0, 45);
    ScanPasses(t, 1, 45);
  }

  /** Day 11 of the general table lands on day 11 of September. */
  lemma CommonYearScan11(t: seq<int>)
    requires GregorianTable(t, 0, 28)
    ensures Scan(t, 0, 11) == Found(1, 11)
  {
    ScanPasses(t, 0, 11);
  }

  /** Day 377 of a leap-February table lands on day 11 of the last September slot. */
  lemma LeapYearScan377(t: seq<int>)
    requires GregorianTable(t, 0, 29)
    ensures Scan(t, 0, 377) == Found(13, 11)
  {
    ScanPasses(t, 0, 377);
    ScanPasses(t, 1, 377);
    ScanPasses(t, 2, 347);
    ScanPasses(t, 3, 316);
    ScanPasses(t, 4, 286);
    ScanPasses(t, 5, 255);
    ScanPasses(t, 6, 224);
    ScanPasses(t, 7, 195);
    ScanPasses(t, 8, 164);
    ScanPasses(t, 9, 134);
    ScanPasses(t, 10, 103);
    ScanPasses(t, 11, 73);
    ScanPasses(t, 12, 42);
  }

  /** Day 29 of the Julian table stays in the August slot. */
  lemma JulianScan29(t: seq<int>)
    requires GregorianTable(t, 31, 28)
    ensures Scan(t, 0, 29) == Found(0, 29)
  {
  }

  /** Day 65 of the Julian table lands on day 4 of October. */
  lemma JulianScan65(t: seq<int>)
    requires GregorianTable(t, 31, 28)
    ensures Scan(t, 0, 65) == Found(2, 4)
  {
    ScanPasses(t, 0, 65);
    ScanPasses(t, 1, 34);
  }

  /** Day 5 of a table whose Tahsas slot holds 8 days stays in that slot. */
  lemma AfterReformScan5(t: seq<int>)
    requires EthiopianTable(t, 8, 30, 5)
    ensures Scan(t, 1, 5) == Found(1, 5)
  {
  }

  /** Day 277 of the pre-reform table lands on day 7 of Tikimt. */
  lemma BeforeReformScan277(t: seq<int>)
    requires EthiopianTable(t, 0, 25, 5)
    ensures Scan(t, 1, 277) == Found(12, 7)
  {
    ScanPasses(t, 1, 277);
    ScanPasses(t, 2, 277);
    ScanPasses(t, 3, 252);
    ScanPasses(t, 4, 222);
    ScanPasses(t, 5, 192);
    ScanPasses(t, 6, 162);
    ScanPasses(t, 7, 132);
    ScanPasses(t, 8, 102);
    ScanPasses(t, 9, 72);
    ScanPasses(t, 10, 42);
    ScanPasses(t, 11, 37);
  }

  /** Day 288 of the 1582 post-reform table lands on day 8 of Tikimt. */
  lemma AfterReformScan288(t: seq<int>)
    requires EthiopianTable(t, 5, 30, 5)
    ensures Scan(t, 1, 288) == Found(12, 8)
  {
    ScanPasses(t, 1, 288);
    ScanPasses(t, 2, 283);
    ScanPasses(t, 3, 253);
    ScanPasses(t, 4, 223);
    ScanPasses(t, 5, 193);
    ScanPasses(t, 6, 163);
    ScanPasses(t, 7, 133);
    ScanPasses(t, 8, 103);
    ScanPasses(t, 9, 73);
    ScanPasses(t, 10, 43);
    ScanPasses(t, 11, 38);
  }

  /** Day 365 of a pre-reform table with a six-day Pagume runs past every slot. */
  lemma BeforeReformScan365(t: seq<int>)
    requires EthiopianTable(t, 0, 26, 6)
    ensures Scan(t, 1, 365) == Exhausted
  {
    ScanPasses(t, 1, 365);
    ScanPasses(t, 2, 365);
    ScanPasses(t, 3, 339);
    ScanPasses(t, 4, 309);
    ScanPasses(t, 5, 279);
    ScanPasses(t, 6, 249);
    ScanPasses(t, 7, 219);
    ScanPasses(t, 8, 189);
    ScanPasses(t, 9, 159);
    ScanPasses(t, 10, 129);
    ScanPasses(t, 11, 123);
    ScanPasses(t, 12, 93);
    ScanPasses(t, 13, 63);
    ScanPasses(t, 14, 33);
  }

  /** The help text's example for `to_gregorian`: 27 Tahsas 2017 is 5 January 2025. */
  lemma HelpExampleToGregorian()
    ensures GregorianOf(2017, 4, 27) == Converted(Date(2025, 1, 5))
  {
    GregorianSlotsTable(2017, false);
    CommonYearScan127(GregorianSlotsFor(2017, false));
    GregorianOfFound(2017, 4, 27, GregorianSlotsFor(2017, false), 127, 5, 5);
  }

  /** The help text's example for `to_ethiopian`: 5 January 2025 is 27 Tahsas 2017. */
  lemma HelpExampleToEthiopian()
    ensures EthiopianOf(2025, 1, 5) == Converted(Date(2017, 4, 27))
  {
    assert MonthLengths(2025)[1..1] == [];
    EthiopianSlotsTable(2025, 5);
    AfterReformScan5(EthiopianSlotsFor(2025, 5));
    EthiopianOfFound(2025, 1, 5, 5, EthiopianSlotsFor(2025, 5), 1, 5);
  }

  /** The first day of the Ethiopian era falls on 29 August of year 8, on the Julian branch. */
  lemma FirstEthiopianDay()
    ensures GregorianOf(1, 1, 1) == Converted(Date(8, 8, 29))
  {
    GregorianSlotsTable(1, true);
    JulianScan29(GregorianSlotsFor(1, true));
    GregorianOfFound(1, 1, 1, GregorianSlotsFor(1, true), 29, 0, 29);
  }

  /** 7 Tikimt 1575 is 4 October 1582, the last day the Julian branch reaches. */
  lemma LastJulianDayOf1575()
    ensures GregorianOf(1575, 2, 7) == Converted(Date(1582, 10, 4))
  {
    GregorianSlotsTable(1575, true);
    JulianScan65(GregorianSlotsFor(1575, true));
    GregorianOfFound(1575, 2, 7, GregorianSlotsFor(1575, true), 65, 2, 4);
  }

  /** 8 Tikimt 1575 is 15 October 1582, the first day on the general branch. */
  lemma FirstGeneralDayOf1575()
    ensures GregorianOf(1575, 2, 8) == Converted(Date(1582, 10, 15))
  {
    GregorianSlotsTable(1575, false);
    CommonYearScan45(GregorianSlotsFor(1575, false));
    GregorianOfFound(1575, 2, 8, GregorianSlotsFor(1575, false), 45, 2, 15);
  }

  /** `to_ethiopian` takes 4 October 1582 back to 7 Tikimt 1575. */
  lemma LastJulianDayBack()
    ensures EthiopianOf(1582, 10, 4) == Converted(Date(1575, 2, 7))
  {
    DaysBeforeOctober1582();
    EthiopianSlotsTable(1582, 277);
    BeforeReformScan277(EthiopianSlotsFor(1582, 277));
    EthiopianOfFound(1582, 10, 4, 277, EthiopianSlotsFor(1582, 277), 12, 7);
  }

  /** `to_ethiopian` takes 15 October 1582 back to 8 Tikimt 1575. */
  lemma FirstGeneralDayBack()
    ensures EthiopianOf(1582, 10, 15) == Converted(Date(1575, 2, 8))
  {
    DaysBeforeOctober1582();
    EthiopianSlotsTable(1582, 288);
    AfterReformScan288(EthiopianSlotsFor(1582, 288));
    EthiopianOfFound(1582, 10, 15, 288, EthiopianSlotsFor(1582, 288), 12, 8);
  }

  /** The last day of Pagume 2016 is 11 September 2024. */
  lemma LastPagumeDayOf2016()
    ensures GregorianOf(2016, 13, 5) == Converted(Date(2024, 9, 11))
  {
    GregorianSlotsTable(2016, false);
    LeapYearScan377(GregorianSlotsFor(2016, false));
    GregorianOfFound(2016, 13, 5, GregorianSlotsFor(2016, false), 377, 13, 11);
  }

  /** Day 13 of a table with a 29-day February lands on day 13 of September. */
  lemma LeapYearScan13(t: seq<int>)
    requires GregorianTable(t, 0, 29)
    ensures Scan(t, 0, 13) == Found(1, 13)
  {
    ScanPasses(t, 0, 13);
  }

  /**
   * New Year 2016 comes out as 13 September 2023: the offset of a leap year already
   * holds its extra day, and `to_gregorian` adds it once more.
   */
  lemma MeskeremOneOf2016()
    ensures GregorianDayCount(2016, 1, 1) == 13
    ensures GregorianOf(2016, 1, 1) == Converted(Date(2023, 9, 13))
  {
    GregorianSlotsTable(2016, false);
    LeapYearScan13(GregorianSlotsFor(2016, false));
    GregorianOfFound(2016, 1, 1, GregorianSlotsFor(2016, false), 13, 1, 13);
  }

  /** New Year 2017 is 11 September 2024. */
  lemma NewYearOf2017()
    ensures GregorianOf(2017, 1, 1) == Converted(Date(2024, 9, 11))
  {
    GregorianSlotsTable(2017, false);
    CommonYearScan11(GregorianSlotsFor(2017, false));
    GregorianOfFound(2017, 1, 1, GregorianSlotsFor(2017, false), 11, 1, 11);
  }

  /** The last day of Pagume 2016 and New Year 2017 give the same day: `to_gregorian` is not one-to-one. */
  lemma GregorianOfNotInjective()
    ensures GregorianOf(2016, 13, 5) == GregorianOf(2017, 1, 1)
  {
    LastPagumeDayOf2016();
    NewYearOf2017();
  }

  /**
   * Before 1576 the Julian branch ends after day 37 of the year, and the switch to the
   * general branch skips ten days of 1581 as if the reform had happened a year early.
   */
  lemma JulianBranchSkipsTenDaysIn1581()
    ensures GregorianOf(1574, 2, 7) == Converted(Date(1581, 10, 4))
    ensures GregorianOf(1574, 2, 8) == Converted(Date(1581, 10, 15))
  {
    GregorianSlotsTable(1574, true);
    JulianScan65(GregorianSlotsFor(1574, true));
    GregorianOfFound(1574, 2, 7, GregorianSlotsFor(1574, true), 65, 2, 4);
    GregorianSlotsTable(1574, false);
    CommonYearScan45(GregorianSlotsFor(1574, false));
    GregorianOfFound(1574, 2, 8, GregorianSlotsFor(1574, false), 45, 2, 15);
  }

  /**
   * Before the reform the table is too short for the end of the year: 31 December
   * 1500 runs past every slot and comes back as day 365 of Tahsas 1493.
   */
  lemma EthiopianOfOverrunsBeforeReform()
    ensures EthiopianOf(1500, 12, 31) == Converted(Date(1493, 4, 365))
    ensures !IsEthiopianDate(1493, 4, 365)
  {
    LastDayOfYear(1500);
    EthiopianSlotsTable(1500, 365);
    BeforeReformScan365(EthiopianSlotsFor(1500, 365));
    EthiopianOfExhausted(1500, 12, 31, 365, EthiopianSlotsFor(1500, 365));
  }
}
