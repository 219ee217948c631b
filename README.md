# calendar_bot in Dafny

A model of the core of calendar_bot, a Telegram bot that converts dates between
the Ethiopian and the Gregorian calendars. It covers three parts:

- **The converter** (`converter.py`, module `Converter`):
  - the two leap-year rules and the new-year offset;
  - the two validators, each returning the first failing check as an error value;
  - `to_gregorian` and `to_ethiopian`.
  Each conversion is a specification function (`GregorianOf`, `EthiopianOf`) built on a
  first-fit scan over a fixed slot table (`Scan`). It is also a method (`ToGregorian`,
  `ToEthiopian`) that fills an `array` with the table, runs the counting loop and the
  scan loop with `break`, and is proved equal to the function. Module
  `ConverterProperties` holds the lemmas: how the scan finds its slot, the totals of the
  tables, totality on bounded years, the 1582 reform switch, and concrete dates.
- **The conversation** (`bot.py`, modules `Text`, `Bot` and `BotProperties`):
  - `looks_like_date`, `parse_slash_date`, and the two `format_*` functions with Python's
    negative list indices;
  - the state machine that `start` and `handle_text` drive over `context.user_data`.
  The state is a `Session` value (`Step` gives the next state and the kind of reply). It
  is also a class `UserData` whose methods change the dictionary in place, proved
  against `Step`. `Text` models the bits of Python's `str` the bot relies on: `in`,
  `strip`, `split` on one character, `str(int)` and `int(str)`.
- **The user-record migration** (`user_migrate.py`, module `UserMigrate`): `migrate_record`
  on a JSON-like record, and the loop of `main` that migrates every user and counts the
  changed records.

Where the code and its documentation differ, the model follows the code:
- slot 0 of `to_gregorian`'s `order` is August (8);
- the six-day Pagume falls in Ethiopian years with `(year - 1) % 4 == 3`, so 2016 and
  not 2015;
- no round trip between the two conversions holds in general (`GregorianOfNotInjective`);
- `_start_day_of_ethiopian` already adds the leap day, and `to_gregorian` adds it a second
  time, so 1 Meskerem of an Ethiopian leap year comes out as 13 September
  (`MeskeremOneOf2016`: 2016/1/1 gives 13 September 2023).

The `except Exception` branch of `handle_text` is reachable: an Ethiopian date from the
year 2147483640 on gives `datetime.date` a Gregorian year beyond a C `int`, and CPython
raises OverflowError rather than ValueError (`UnexpectedErrorOnlyOnOverflow`).

## Model

| member | source | states |
|---|---|---|
| Converter.ValidateEthiopian | converter.py:25-58 | no message exactly for year >= 1, month 1..13 and a day within 30, or within 5/6 for Pagume; otherwise the first failing check in the order year, month <= 0, day <= 0, month > 13, day limit, with the values the message interpolates |
| Converter.ValidateGregorian | converter.py:60-103 | no message exactly for a valid date with the leap-year February and outside 5..14 October 1582; the reform gap is reported before the day limit; the day-limit error carries the month length and, for February, whether the year is leap |
| Converter.IsEthiopianLeapYear | converter.py:15-18 | `(year - 1) % 4 == 3` holds exactly for multiples of four |
| Converter.IsGregorianLeapYear | converter.py:20-23 | a leap year is a multiple of four; outside century years every multiple of four is leap, and a century year is leap exactly when it is a multiple of 400 |
| Converter.NewYearOffset | converter.py:9-13 | in the Ethiopian years 1900 to 2099 the offset of 1 Meskerem into September is 11, or 12 in an Ethiopian leap year |
| Converter.ArgumentOverflow | converter.py:157 | `datetime.date` reads year, month and day as C `int`s in that order; the first outside -2^31..2^31-1 raises OverflowError; there is none exactly when all three fit, and a date `datetime.date` accepts never overflows |
| Converter.DatetimeCheck | converter.py:157 | once read, `datetime.date` accepts exactly a year in 1..9999, a month in 1..12 and a day within the proleptic month; a year error names the year |
| Converter.ScanLandsInSlot | converter.py:140-149 | a scan that stops lands in a slot at or after its start, with a remainder no larger than that slot, and positive when the count was positive |
| Converter.GregorianOf | converter.py:113-157 | an invalid Ethiopian date fails with the validator's message before any arithmetic; a result is only returned for a valid Ethiopian date and is a date `datetime.date` accepts; an overflow only comes from a valid Ethiopian date and names a value beyond a C `int` |
| Converter.FixedGregorianSlots | converter.py:121-138 | the month table after the leap-February and Julian fix-ups, and the adjusted day count |
| Converter.ToGregorian | converter.py:113-157 | the array-and-loop `to_gregorian` returns what `GregorianOf` specifies |
| Converter.EthiopianFields | converter.py:167-220 | the returned month is in 1..13 and the year is the Gregorian year minus 8 or minus 7 |
| Converter.EthiopianOf | converter.py:159-220 | an invalid Gregorian date fails with the validator's message; a date is returned exactly for a valid Gregorian date, with month 1..13 and year = Gregorian year - 8 or - 7; it never overflows, since no `datetime.date` is built |
| Converter.CountDayOfYear | converter.py:182-185 | the counting loop computes the day of the year |
| Converter.FixedEthiopianSlots | converter.py:167-200 | the slot table after the Pagume and Tahsas fix-ups, and the Tahsas length used by the scan |
| Converter.ToEthiopian | converter.py:159-220 | the array-and-loop `to_ethiopian` returns what `EthiopianOf` specifies |
| ConverterProperties.ScanFirstFit | converter.py:140-149 | the scan stops at the first slot the remaining count fits in; every slot before it is smaller than what was left there, and the remainder is the count minus the skipped slots |
| ConverterProperties.ScanExhaustedExceedsTotal | converter.py:203-212 | a positive count that runs past every slot exceeds the sum of the slots |
| ConverterProperties.PagumeSixthDayIffLeap | converter.py:50-56 | Pagume 6 is accepted exactly in an Ethiopian leap year; otherwise it is rejected with the five-day, non-leap message |
| ConverterProperties.PagumeSixthDayIn2016Not2015 | converter.py:50-56 | 2016/13/6 is valid and `to_gregorian(2015, 13, 6)` fails with the five-day message |
| ConverterProperties.FebruaryTwentyNinthIffLeap | converter.py:84-101 | 29 February is accepted exactly in a Gregorian leap year; otherwise the message says 28 days, non-leap year |
| ConverterProperties.ReformGapRejected | converter.py:88-91 | 5..14 October 1582 fail with the reform-gap message, while 4 and 15 October convert |
| ConverterProperties.DatetimeAcceptsValidGregorian | converter.py:157 | `datetime.date` and the Gregorian validator agree, except for the years above 9999 and the reform gap |
| ConverterProperties.GregorianSlotsTotal | converter.py:123-132 | `to_gregorian`'s table holds 367 days plus the August slot and February |
| ConverterProperties.GregorianSlotsTable | converter.py:123-132 | the table's slots one by one: 0 or 31 in slot 0 (Julian branch), 28 or 29 in slot 6 (leap year + 8), the fixed lengths elsewhere |
| ConverterProperties.EthiopianSlotsTable | converter.py:168-200 | the slots of `to_ethiopian`'s table: before the reform slot 1 is emptied and slot 2 holds the old Tahsas; after it, slot 1 holds offset - 3; Pagume has 6 days in a leap year |
| ConverterProperties.GregorianSlotFitsMonth | converter.py:151-157 | every slot is no longer than the Gregorian month `order` maps it to, in the year the code assigns |
| ConverterProperties.GregorianFieldsFirstFit | converter.py:129-155 | the adjusted count is positive; at the stop slot the day is the count minus the slots before it and fits that slot; the year is year + 7, + 1 from slot 5 on; the month is `order[m]`; an exhausted scan keeps the count |
| ConverterProperties.CenturyTermsFrom1500 | converter.py:9-13 | from 1500 on, the century terms of the new-year offset are at least 15 and 12 |
| ConverterProperties.GregorianDayCountAtMost393 | converter.py:129-138 | up to year 3000 the adjusted day count never exceeds 393 |
| ConverterProperties.GregorianScanFinds | converter.py:140-149 | up to year 3000 the scan of a valid Ethiopian date always stops in a slot |
| ConverterProperties.GregorianOfIsTotal | converter.py:113-157 | up to year 3000 every valid Ethiopian date converts, to a valid Gregorian date |
| ConverterProperties.OverflowIffYearBeyondCInt | converter.py:113-157 | `to_gregorian` raises OverflowError exactly for a valid Ethiopian date whose Gregorian year is above 2^31-1, since its month and day always fit; from Ethiopian year 2147483640 on every valid date does |
| ConverterProperties.PrefixSumMonotone | converter.py:182-185 | summing more month lengths never gives less |
| ConverterProperties.DayOfYearWithinMonth | converter.py:182-185 | the day of the year lies after the months before `month` and within `month` |
| ConverterProperties.MonthStarts | converter.py:167-171 | the twelve month-start counts of the year, one more from March on in a leap year |
| ConverterProperties.YearLength | converter.py:167-171 | the months add up to 365 days, 366 in a leap year |
| ConverterProperties.LastDayOfYear | converter.py:182-185 | 31 December is day 365, or 366 in a leap year |
| ConverterProperties.DaysBeforeOctober | converter.py:167-171 | outside leap years, 273 days come before October and 304 before November |
| ConverterProperties.DaysBeforeOctober1582 | converter.py:195 | in 1582, 273 days come before October and 304 before November |
| ConverterProperties.DayOfYearUpToOctober4 | converter.py:195 | outside leap years the day of the year is at most 277 exactly up to 4 October |
| ConverterProperties.BeforeReformEndsOnOctober4 | converter.py:192-197 | in 1582 the pre-reform Tahsas is used exactly through 4 October |
| ConverterProperties.GregorianDayOfYearBounds | converter.py:182-185 | the day of a valid date's year is between 1 and 365, or 366 in a leap year |
| ConverterProperties.EthiopianTableTotal | converter.py:168 | the slots after slot 0 hold both Tahsas slots, Pagume and 330 more days |
| ConverterProperties.EthiopianSlotsAfterReform | converter.py:198-200 | after the reform and up to 3000, Tahsas is 5..30 and sits in slot 1; no slot is shorter than 5; the table covers at least 370 days |
| ConverterProperties.EthiopianOfValidAfterReform | converter.py:198-220 | after the reform and up to 3000, every valid Gregorian date converts to a valid Ethiopian date |
| ConverterProperties.GregorianOfFound | converter.py:140-157 | a scan stopping in slot m with remainder r gives year + 7 (+ 1 from slot 5), month `order[m]`, day r |
| ConverterProperties.EthiopianOfFound | converter.py:204-220 | a scan stopping in slot m gives year - 8 (+ 1 after slot 10), month `order[m]`, and the remainder moved on by 30 - Tahsas in slot 1 or an emptied slot |
| ConverterProperties.EthiopianOfExhausted | converter.py:202-220 | a scan running past every slot keeps the last slot (Tahsas of the next year) and the whole day of the year |
| ConverterProperties.HelpExampleToGregorian | bot.py:230 | Ethiopian 2017/4/27 converts to 5 January 2025 |
| ConverterProperties.HelpExampleToEthiopian | bot.py:231 | Gregorian 2025/1/5 converts to Ethiopian 2017/4/27 |
| ConverterProperties.FirstEthiopianDay | converter.py:129-132 | Ethiopian 1/1/1 takes the Julian branch and gives 29 August of year 8 |
| ConverterProperties.LastJulianDayOf1575 | converter.py:130-132 | 7 Tikimt 1575, the last Julian-branch day, is 4 October 1582 |
| ConverterProperties.FirstGeneralDayOf1575 | converter.py:133-134 | 8 Tikimt 1575 is 15 October 1582 |
| ConverterProperties.LastJulianDayBack | converter.py:195-197 | `to_ethiopian` takes 4 October 1582 back to 7 Tikimt 1575 |
| ConverterProperties.FirstGeneralDayBack | converter.py:198-200 | `to_ethiopian` takes 15 October 1582 back to 8 Tikimt 1575 |
| ConverterProperties.LastPagumeDayOf2016 | converter.py:121-157 | Pagume 5, 2016 is 11 September 2024 |
| ConverterProperties.MeskeremOneOf2016 | converter.py:121-157 | the adjusted count of 2016/1/1 is 13, not 12, since the leap day is added twice, and the date comes out as 13 September 2023 |
| ConverterProperties.NewYearOf2017 | converter.py:121-157 | Meskerem 1, 2017 is also 11 September 2024 |
| ConverterProperties.GregorianOfNotInjective | converter.py:121-157 | two different Ethiopian dates give the same Gregorian date, so no general round trip holds |
| ConverterProperties.JulianBranchSkipsTenDaysIn1581 | converter.py:130-134 | in 1574 the switch off the Julian branch also jumps from 4 to 15 October, a year before the reform |
| ConverterProperties.EthiopianOfOverrunsBeforeReform | converter.py:202-220 | before the reform 31 December 1500 runs past every slot and comes back as day 365 of Tahsas 1493, not a valid Ethiopian date |
| Text.ContainsIff | bot.py:423 | Python's `p in s` holds exactly when `p` occurs at some position |
| Text.ContainsAt | bot.py:423 | an occurrence at a known position makes `p in s` true |
| Text.ContainsPiece | bot.py:423 | a string built around `p` contains `p` |
| Text.NotContainsByFirstChar | bot.py:423 | `p in s` is false when no fitting position starts with `p`'s first character |
| Text.ContainsFirstChar | bot.py:423 | if `p in s`, the first character of `p` is in `s` |
| Text.ContainsChar | bot.py:335 | for one character, `in` is membership |
| Text.HasDigit | bot.py:335 | `any(ch.isdigit() for ch in s)` holds exactly when some character is a digit |
| Text.TrimStart | bot.py:419 | `lstrip` removes a whitespace prefix and leaves a suffix not starting with whitespace |
| Text.TrimEnd | bot.py:419 | `rstrip` removes a whitespace suffix and leaves a prefix not ending with whitespace |
| Text.StripKeepsTrimmed | bot.py:419 | stripping a string with no whitespace at either end changes nothing |
| Text.Split | bot.py:339 | `split('/')` gives one piece more than there are slashes, no piece holds a slash, and joining the pieces gives the text back |
| Text.SplitAtFirst | bot.py:339 | splitting a slash-free piece, a slash and a rest gives the piece followed by the rest's pieces |
| Text.SplitWithoutSeparator | bot.py:339 | a slash-free string splits into itself alone |
| Text.DigitChar | bot.py:343 | the character of a decimal digit is a digit whose value is that digit |
| Text.NatToString | bot.py:343 | `str(n)` of a natural number is a non-empty run of digits |
| Text.DigitValue | bot.py:343 | a digit's value is below ten |
| Text.DigitsValueOfNatToString | bot.py:343 | reading back the digits of `str(n)` gives `n` |
| Text.ParseInt | bot.py:343 | `int(s)` only succeeds on a run of digits, or on a sign followed by a run of digits; anything else fails |
| Text.IntToStringCharacters | bot.py:343 | `str(n)` is non-empty and made of digits after at most a leading minus |
| Text.ParseIntOfIntToString | bot.py:343 | `int(str(n)) == n` |
| Bot.LooksLikeDate | bot.py:333-335 | true exactly when the text holds a '/' and at least one digit |
| Bot.StripAll | bot.py:339 | every piece stripped, in order |
| Bot.ParseSlashDate | bot.py:337-346 | "must have exactly 3 parts" exactly when the text does not have two slashes; otherwise the three stripped pieces read as integers in order, or "must be numbers" when one of them does not |
| Bot.NotNumbersExample | bot.py:337-346 | "x/1/1" has three pieces but raises "must be numbers" |
| Bot.IntToStringIsOnePiece | bot.py:337-346 | `str(n)` holds no slash and is already stripped |
| Bot.SplitWritten | bot.py:339 | three slash-free pieces joined by slashes split back into those three pieces |
| Bot.ParseSlashDateOfWritten | bot.py:337-346 | a date written as `y/m/d` parses back to `(y, m, d)` |
| Bot.PyIndex | bot.py:349 | Python's `names[i]` on a list: negative indices count from the end; outside `-len..len-1` is the IndexError |
| Bot.FormatEthiopian | bot.py:348-349 | the lookup succeeds exactly for month -12..13; for months 1..13 the text is day, month name, year and the era suffix |
| Bot.FormatGregorian | bot.py:351-352 | the lookup succeeds exactly for month -11..12; for months 1..12 the text is month name, day, comma and year |
| Bot.FormatEthiopianMonthZero | bot.py:349 | month 0 does not raise: index -1 picks Pagume |
| Bot.AttemptConversion | bot.py:481-501 | a text that does not parse raises the parse message; a conversion failure only follows a successful parse; another exception comes exactly when the text parses, the direction is E2G and `to_gregorian` overflows |
| Bot.AttemptDate | bot.py:484-501 | both dates are formatted exactly when the converter accepts the date; another exception comes exactly when the direction is E2G and `to_gregorian` overflows; every other failure is the converter's ValueError |
| Bot.IsFormatError | bot.py:508 | both of `parse_slash_date`'s messages are recognised as format errors, and a converter error never is |
| Bot.AsksLanguageChange | bot.py:423 | a text that asks for a language change holds a "🌐", a 'C' or a "ቋ" |
| Bot.Step | bot.py:413-446 | a language-change text clears the state from any state; without a language the reply is a language choice or "not understood"; a direction is only ever set after a language |
| Bot.ChooseLanguage | bot.py:430-446 | "English" is looked for before "አማርኛ"; otherwise nothing changes; the direction is untouched |
| Bot.WithLanguage | bot.py:448-467 | "Ethiopian →" sets E2G before "Gregorian →" sets G2E; without a direction other text changes nothing; the language is never changed |
| Bot.AwaitDate | bot.py:469-482 | non-date text keeps the state and gets the direction's example; a date-like text gets the reply to the attempt |
| Bot.Answer | bot.py:503-518 | success drops the direction and keeps the language; a ValueError keeps the state and gets the format-error reply exactly when its message is a parse message; the unexpected-error reply comes only from another exception |
| Bot.Convert | bot.py:481-482 | parsing then converting with the converter's own loops gives `AttemptConversion` |
| Bot.ConvertDate | bot.py:484-501 | converting and formatting with the converter's own loops gives `AttemptDate` |
| Bot.UserData.Start | bot.py:359-372 | `start` empties the dictionary and greets |
| Bot.UserData.HandleText | bot.py:413-518 | `handle_text` changes the dictionary in place and replies exactly as `Step` says |
| Bot.UserData.Respond | bot.py:503-518 | the reply to an attempt and the dictionary after it, as `Answer` says |
| BotProperties.ReadAsDate | bot.py:449-474 | with a language and a direction, text that is no button is read as a date |
| BotProperties.NonDateKeepsWaiting | bot.py:474-479 | text that does not look like a date keeps the state and gets the example |
| BotProperties.AwaitingDate | bot.py:474-504 | while a date is awaited, the direction is dropped exactly when the text looks like a date, parses and converts; the language always stays; a failure keeps the whole state |
| BotProperties.ErrorRouting | bot.py:506-512 | a date-like text that does not parse gets the format-error reply with the example; a converter failure gets the conversion-error reply with its message; both keep the state |
| BotProperties.UnexpectedErrorOnlyOnOverflow | bot.py:481-518 | the unexpected-error reply comes exactly when, with a language and E2G chosen and no button text, a date-like text parses to a valid Ethiopian date whose Gregorian year is above 2^31-1 |
| BotProperties.LabelsAreStripped | bot.py:128-149 | the button labels are unchanged by `strip` |
| BotProperties.OnlyChangeLanguageKeyAsks | bot.py:128-149 | of the buttons, only "🌐 Change Language" asks for a language change |
| BotProperties.LabelMarkers | bot.py:128-140 | each button label holds the marker its branch looks for, and not a marker of an earlier branch |
| BotProperties.EnglishButton | bot.py:432-433 | the "English 🇬🇧" button sets the language to English |
| BotProperties.AmharicButton | bot.py:434-435 | the "አማርኛ 🇪🇹" button sets the language to Amharic |
| BotProperties.ToGregorianButton | bot.py:449-454 | the "🇪🇹 Ethiopian → 🌍 Gregorian" button sets E2G and asks for an Ethiopian date |
| BotProperties.ToEthiopianButton | bot.py:455-460 | the "🌍 Gregorian → 🇪🇹 Ethiopian" button sets G2E and asks for a Gregorian date |
| BotProperties.ChangeLanguageButton | bot.py:423-428 | the "🌐 Change Language" button clears the state from any state |
| BotProperties.ExamplesFormat | bot.py:348-352 | the examples format as "27 ታህሳስ 2017 ዓ.ም" and "January 5, 2025" |
| BotProperties.ExamplesParse | bot.py:326-329 | the example texts parse to 2017/4/27 and 2025/1/5 |
| BotProperties.EthiopianExampleConverts | bot.py:230 | entering the E2G example yields both formatted dates of the help text |
| BotProperties.GregorianExampleConverts | bot.py:231 | entering the G2E example yields both formatted dates of the help text |
| UserMigrate.CompactField | user_migrate.py:89-101 | an existing compact key is kept; otherwise the verbose value, exactly when it is truthy and not "N/A" |
| UserMigrate.MigrateRecord | user_migrate.py:73-107 | the result has only keys "t", "u" and "n"; "t" is kept or set to 0; "u" and "n" are kept or filled from truthy, non-"N/A" `username` and `first_name`; changed exactly when "t" was missing or a verbose key was present |
| UserMigrate.UnchangedKeepsCompactPart | user_migrate.py:77-107 | a record reported unchanged comes back as its compact part; any other key is dropped silently |
| UserMigrate.CompactRecordUntouched | user_migrate.py:77 | an already compact record with "t" comes back equal, reported unchanged |
| UserMigrate.MigrateIdempotent | user_migrate.py:9 | migrating a migrated record gives it back, reported unchanged |
| UserMigrate.ChangedUsers | user_migrate.py:121-129 | the users counted as migrated are exactly those whose record lacked "t" or had a verbose key |
| UserMigrate.MigratedUsers | user_migrate.py:121-124 | `new_users` has exactly the uids of `users`, each with "t" and only compact keys |
| UserMigrate.RerunChangesNothing | user_migrate.py:9 | a second run leaves the migrated users as they are and counts nobody as migrated |
| UserMigrate.MigrateUsers | user_migrate.py:115-129 | the loop builds every user's migrated record, counts the changed ones, and `migrated + already_ok` is the number of users |

## Left out

- Telegram plumbing: the async `reply_text` calls, the keyboards, command registration and polling. The model keeps the kind of reply and its data, not the localised `TEXT` strings or markup.
- `help_command` and `stats_command`: they only read the state and reply. `is_admin` reads the environment.
- Persistence: `load_users`, `save_users`, `add_user` and `get_user_count` in bot.py, and `load_raw` and `save_raw` in user_migrate.py. This is S3 and file I/O. `start` is modelled without its user tracking, and `raw.get("users", {})` becomes the `users` map parameter of `MigrateUsers`.
- The printing and the KB size report of `user_migrate.main`: console output and float division.
- `date_to_gregorian` and `date_to_ethiopian`: thin wrappers over `datetime` objects.
- The `isinstance` checks of the validators: every input is an integer here.
- Error messages: they are kept as error values carrying the interpolated numbers, not formatted text.
- `int()` in `parse_slash_date` is limited to an optional sign and ASCII digits. Underscores, inner whitespace and non-ASCII digits are not modelled, and `str.isdigit` is limited to ASCII digits for the same reason.
- Python's limit of 4300 digits on converting between `int` and `str`: a Telegram message holds at most 4096 characters, so no date text reaches it, and `ParseInt` reads any number of digits.
- The order of `users.items()`: `MigrateUsers` takes the uids in any order, so the result does not depend on it.
- Exceptions raised by `reply_text` itself inside the `try` of `handle_text` (network errors): they also reach `except Exception`, but the model has no Telegram I/O. The only exception it models there is the OverflowError of `datetime.date`.
- A C `int` is taken to be 32 bits wide, as on the platforms CPython supports.
- Concurrency: two updates of the same user handled at once are not modelled.
- ConverterProperties.GregorianOfIsTotal: proved for Ethiopian years up to 3000 only, because the bound on the adjusted day count comes from the new-year offset of those centuries.
- ConverterProperties.EthiopianOfValidAfterReform: proved for Gregorian years up to 3000 only, for the same reason, and not before the reform, where the scan can overrun (`EthiopianOfOverrunsBeforeReform`).
