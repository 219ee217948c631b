/**
 * The conversation logic of bot.py: the helpers that recognise, parse and format
 * dates, and the per-user state machine that `start` and `handle_text` drive.
 *
 * A user's `context.user_data` holds at most two keys, "lang" and "mode"; it is
 * modelled by `Session` (as a value) and by the class `UserData` (as the dictionary
 * the handlers change in place). What a handler sends back is modelled by the kind
 * of reply and the data it carries, not by its localised text or keyboard.
 */
module Bot {
  import opened Wrappers
  import opened Text
  import opened Converter

  // ---------------------------------------------------------------------------
  // Recognising and parsing a date

  /** `looks_like_date`: the text holds a slash and at least one digit. */
  function LooksLikeDate(text: string): (r: bool)
    ensures r <==> '/' in text && exists k :: 0 <= k < |text| && IsDigit(text[k])
  {
    ContainsChar(text, '/');
    Contains(text, "/") && HasDigit(text)
  }

  /** The message of the ValueError for a wrong number of pieces. */
  const ThreePartsMessage := "must have exactly 3 parts"

  /** The message of the ValueError for a piece that is not an integer. */
  const NumbersMessage := "must be numbers"

  /** What `parse_slash_date` returns, or which of its two ValueErrors it raises. */
  datatype ParseResult = Parsed(year: int, month: int, day: int) | WrongPartCount | NotNumbers

  /** The message of the ValueError `parse_slash_date` raises. */
  function ParseMessage(r: ParseResult): string
    requires !r.Parsed?
  {
    match r
    case WrongPartCount => ThreePartsMessage
    case NotNumbers => NumbersMessage
  }

  /** Every piece, stripped. */
  function StripAll(parts: seq<string>): (r: seq<string>)
    ensures |r| == |parts| && forall k :: 0 <= k < |parts| ==> r[k] == Strip(parts[k])
  {
    seq(|parts|, k requires 0 <= k < |parts| => Strip(parts[k]))
  }

  /**
   * `parse_slash_date`: the text split on '/' must give exactly three pieces, and
   * each stripped piece must read as an integer; the date is those three integers
   * in order.
   */
  function ParseSlashDate(text: string): (r: ParseResult)
    ensures r.WrongPartCount? <==> Count(text, '/') != 2
    ensures r.Parsed? ==>
      var pieces := Split(text, '/');
      && ParseInt(Strip(pieces[0])) == Some(r.year)
      && ParseInt(Strip(pieces[1])) == Some(r.month)
      && ParseInt(Strip(pieces[2])) == Some(r.day)
    ensures r.NotNumbers? ==>
      exists k :: 0 <= k < 3 && ParseInt(Strip(Split(text, '/')[k])).None?
  {
    var parts := StripAll(Split(text, '/'));
    if |parts| != 3 then WrongPartCount
    else
      var year, month, day := ParseInt(parts[0]), ParseInt(parts[1]), ParseInt(parts[2]);
      if year.Some? && month.Some? && day.Some? then Parsed(year.value, month.value, day.value)
      else NotNumbers
  }

  /** "x/1/1" has three pieces, but "x" is no number: the "must be numbers" error. */
  lemma NotNumbersExample()
    ensures ParseSlashDate("x/1/1") == NotNumbers
  {
    assert "x" + "/" + "1" + "/" + "1" == "x/1/1";
    SplitWritten("x", "1", "1");
    StripKeepsTrimmed("x");
    StripKeepsTrimmed("1");
    var parts := StripAll(["x", "1", "1"]);
    assert parts[0] == "x";
    assert !IsDigits("x") && "x"[0] != '+' && "x"[0] != '-';
  }

  /** `str(n)` neither holds a slash nor starts or ends with whitespace. */
  lemma IntToStringIsOnePiece(n: int)
    ensures '/' !in IntToString(n)
    ensures Strip(IntToString(n)) == IntToString(n)
  {
    var s := IntToString(n);
    IntToStringCharacters(n);
    StripKeepsTrimmed(s);
  }

  /** Three pieces without a slash, joined by slashes, split back into themselves. */
  lemma {:induction false} SplitWritten(y: string, m: string, d: string)
    requires '/' !in y && '/' !in m && '/' !in d
    ensures Split(y + "/" + m + "/" + d, '/') == [y, m, d]
  {
    var rest := m + ['/'] + d;
    assert y + "/" + m + "/" + d == y + ['/'] + rest by {
      assert "/" == ['/'];
      assert (y + ['/'] + m) + ['/'] + d == y + ['/'] + (m + ['/'] + d);
    }
    SplitAtFirst(y, '/', rest);
    SplitAtFirst(m, '/', d);
    SplitWithoutSeparator(d, '/');
    assert [y] + ([m] + [d]) == [y, m, d];
  }

  /** A date written as `f"{y}/{m}/{d}"` parses back to `(y, m, d)`. */
  lemma {:induction false} ParseSlashDateOfWritten(year: int, month: int, day: int)
    ensures ParseSlashDate(IntToString(year) + "/" + IntToString(month) + "/" + IntToString(day))
      == Parsed(year, month, day)
  {
    IntToStringIsOnePiece(year);
    IntToStringIsOnePiece(month);
    IntToStringIsOnePiece(day);
    var y, m, d := IntToString(year), IntToString(month), IntToString(day);
    SplitWritten(y, m, d);
    var stripped := StripAll([y, m, d]);
    assert stripped[0] == y && stripped[1] == m && stripped[2] == d;
    ParseIntOfIntToString(year);
    ParseIntOfIntToString(month);
    ParseIntOfIntToString(day);
  }

  // ---------------------------------------------------------------------------
  // Formatting a date

  /** `ETH_MONTHS`: the thirteen Ethiopian month names, Meskerem first and Pagume last. */
  const EthiopianMonthNames: seq<string> := [
    "\U{1218}\U{1235}\U{12A8}\U{1228}\U{121D}", "\U{1325}\U{1245}\U{121D}\U{1275}",
    "\U{1285}\U{12F3}\U{122D}", "\U{1273}\U{1205}\U{1233}\U{1235}",
    "\U{1325}\U{122D}", "\U{12E8}\U{12AB}\U{1272}\U{1275}",
    "\U{1218}\U{130B}\U{1262}\U{1275}", "\U{121A}\U{12EB}\U{12DD}\U{12EB}",
    "\U{130D}\U{1295}\U{1266}\U{1275}", "\U{1230}\U{1294}",
    "\U{1210}\U{121D}\U{120C}", "\U{1290}\U{1210}\U{1234}",
    "\U{1333}\U{1309}\U{121C}"]

  /** `GREG_MONTHS`: the twelve Gregorian month names. */
  const GregorianMonthNames: seq<string> := [
    "January", "February", "March", "April", "May", "June",
    "July", "August", "September", "October", "November", "December"]

  /**
   * Python's `names[i]`: a negative index counts from the end, and an index outside
   * `-len..len-1` is the IndexError, here `None`.
   */
  function PyIndex(names: seq<string>, i: int): (r: Option<string>)
    ensures r.Some? <==> -|names| <= i < |names|
    ensures 0 <= i < |names| ==> r == Some(names[i])
    ensures -|names| <= i < 0 ==> r == Some(names[|names| + i])
  {
    if 0 <= i < |names| then Some(names[i])
    else if -|names| <= i < 0 then Some(names[|names| + i])
    else None
  }

  /** The suffix " ዓ.ም" (the Ethiopian era) of `format_ethiopian`. */
  const EraSuffix := " \U{12D3}.\U{121D}"

  /** `format_ethiopian`: `f"{d} {ETH_MONTHS[m - 1]} {y} ዓ.ም"`, `None` where the lookup raises. */
  function FormatEthiopian(year: int, month: int, day: int): (r: Option<string>)
    ensures r.Some? <==> -12 <= month <= 13
    ensures 1 <= month <= 13 ==>
      r == Some(IntToString(day) + " " + EthiopianMonthNames[month - 1] + " " + IntToString(year) + EraSuffix)
  {
    match PyIndex(EthiopianMonthNames, month - 1)
    case None => None
    case Some(name) => Some(IntToString(day) + " " + name + " " + IntToString(year) + EraSuffix)
  }

  /** `format_gregorian`: `f"{GREG_MONTHS[m - 1]} {d}, {y}"`, `None` where the lookup raises. */
  function FormatGregorian(year: int, month: int, day: int): (r: Option<string>)
    ensures r.Some? <==> -11 <= month <= 12
    ensures 1 <= month <= 12 ==>
      r == Some(GregorianMonthNames[month - 1] + " " + IntToString(day) + ", " + IntToString(year))
  {
    match PyIndex(GregorianMonthNames, month - 1)
    case None => None
    case Some(name) => Some(name + " " + IntToString(day) + ", " + IntToString(year))
  }

  /** Month 0 does not raise: Python's index -1 picks Pagume. */
  lemma FormatEthiopianMonthZero(year: int, day: int)
    ensures FormatEthiopian(year, 0, day) == FormatEthiopian(year, 13, day)
  {
  }

  // ---------------------------------------------------------------------------
  // Conversation state

  /** The two languages, "en" and "am". */
  datatype Lang = English | Amharic

  /** The two conversion directions, "E2G" and "G2E". */
  datatype Mode = EthiopianToGregorian | GregorianToEthiopian

  /** `context.user_data`: the language and the direction, each possibly absent. */
  datatype Session = Session(lang: Option<Lang>, mode: Option<Mode>)

  /** The state `start` and a language change leave behind: nothing chosen. */
  const Cleared := Session(None, None)

  /** A direction is only ever chosen after a language. */
  predicate WellFormed(s: Session) {
    s.mode.Some? ==> s.lang.Some?
  }

  /** `EXAMPLE_DATE[mode]`. */
  function Example(mode: Mode): string {
    match mode
    case EthiopianToGregorian => "2017/4/27"
    case GregorianToEthiopian => "2025/1/5"
  }

  /** A ValueError that reaches `handle_text`: from `parse_slash_date`, or from the converter. */
  datatype ValueError = ParseError(message: string) | ConversionFailure(error: ConversionError)

  /**
   * Whether the ValueError counts as a format error: its message holds one of
   * `parse_slash_date`'s two messages. Both of those are recognised; the
   * converter's errors never are.
   */
  function IsFormatError(e: ValueError): (r: bool)
    ensures e == ParseError(ThreePartsMessage) || e == ParseError(NumbersMessage) ==> r
    ensures e.ConversionFailure? ==> !r
  {
    ContainsAt(ThreePartsMessage, ThreePartsMessage, 0);
    ContainsAt(NumbersMessage, NumbersMessage, 0);
    e.ParseError? && (Contains(e.message, ThreePartsMessage) || Contains(e.message, NumbersMessage))
  }

  /** The reply a handler sends, by its key in `TEXT` and the values filled into it. */
  datatype Reply =
    | Welcome
    | ChangeLanguage
    | UnrecognisedLanguage
    | LanguageChosen(lang: Lang)
    | AskEthiopian(lang: Lang)
    | AskGregorian(lang: Lang)
    | UnrecognisedMode(lang: Lang)
    | UnrecognisedDate(lang: Lang, example: string)
    | FormatError(lang: Lang, example: string)
    | InvalidDate(lang: Lang, error: ValueError)
    | ConvertedToGregorian(lang: Lang, ethiopian: string, gregorian: string)
    | ConvertedToEthiopian(lang: Lang, gregorian: string, ethiopian: string)
    | UnexpectedError(lang: Lang)

  /** The state after a message and the reply to it. */
  datatype Outcome = Outcome(session: Session, reply: Reply)

  /** The outcome of the `try` block: the two formatted dates, a ValueError, or another exception. */
  datatype Attempt = Done(source: string, target: string) | Raised(error: ValueError) | Crashed

  /**
   * "🌐", "Change Language" or "ቋንቋ" appears in the text; so a text that asks for a
   * language change holds a "🌐", a 'C' or a "ቋ".
   */
  function AsksLanguageChange(text: string): (r: bool)
    ensures r ==> '\U{1F310}' in text || 'C' in text || '\U{124B}' in text
  {
    ContainsFirstChar(text, "\U{1F310}");
    ContainsFirstChar(text, "Change Language");
    ContainsFirstChar(text, "\U{124B}\U{1295}\U{124B}");
    Contains(text, "\U{1F310}") || Contains(text, "Change Language") || Contains(text, "\U{124B}\U{1295}\U{124B}")
  }

  /** The marker of the Amharic language button, "አማርኛ". */
  const AmharicMarker := "\U{12A0}\U{121B}\U{122D}\U{129B}"

  /** The marker of the Ethiopian-to-Gregorian button, "Ethiopian →". */
  const EthiopianArrow := "Ethiopian \U{2192}"

  /** The marker of the Gregorian-to-Ethiopian button, "Gregorian →". */
  const GregorianArrow := "Gregorian \U{2192}"

  /**
   * The `try` block of `handle_text` for a text that looks like a date: parse it,
   * convert it in the chosen direction, and format both dates.
   */
  function AttemptConversion(mode: Mode, text: string): (a: Attempt)
    ensures !ParseSlashDate(text).Parsed? ==> a == Raised(ParseError(ParseMessage(ParseSlashDate(text))))
    ensures a.Raised? && a.error.ConversionFailure? ==> ParseSlashDate(text).Parsed?
    ensures a.Crashed? <==>
      && mode == EthiopianToGregorian && ParseSlashDate(text).Parsed?
      && var p := ParseSlashDate(text); GregorianOf(p.year, p.month, p.day).Overflowed?
  {
    match ParseSlashDate(text)
    case WrongPartCount => Raised(ParseError(ThreePartsMessage))
    case NotNumbers => Raised(ParseError(NumbersMessage))
    case Parsed(y, m, d) => AttemptDate(mode, y, m, d)
  }

  /** Whether the converter accepts the parsed date in the chosen direction. */
  predicate Convertible(mode: Mode, year: int, month: int, day: int) {
    match mode
    case EthiopianToGregorian => GregorianOf(year, month, day).Converted?
    case GregorianToEthiopian => EthiopianOf(year, month, day).Converted?
  }

  /**
   * The rest of the `try` block once the date is parsed: convert it, then format
   * the date as given and the converted date. A converted date's month is always
   * one the name tables cover, so formatting raises nothing; the converter raises
   * a ValueError, or an OverflowError (which `except Exception` catches) when
   * `to_gregorian` hands `datetime.date` a year beyond a C `int`.
   */
  function AttemptDate(mode: Mode, year: int, month: int, day: int): (a: Attempt)
    ensures a.Done? <==> Convertible(mode, year, month, day)
    ensures a.Crashed? <==> mode == EthiopianToGregorian && GregorianOf(year, month, day).Overflowed?
    ensures a.Raised? ==> a.error.ConversionFailure?
  {
    match mode
    case EthiopianToGregorian =>
      (match GregorianOf(year, month, day)
       case Failed(e) => Raised(ConversionFailure(e))
       case Overflowed(_) => Crashed
       case Converted(g) =>
         match (FormatEthiopian(year, month, day), FormatGregorian(g.year, g.month, g.day))
         case (Some(source), Some(target)) => Done(source, target)
         case _ => Crashed)
    case GregorianToEthiopian =>
      match EthiopianOf(year, month, day)
      case Failed(e) => Raised(ConversionFailure(e))
      case Overflowed(_) => Crashed
      case Converted(e) =>
        match (FormatGregorian(year, month, day), FormatEthiopian(e.year, e.month, e.day))
        case (Some(source), Some(target)) => Done(source, target)
        case _ => Crashed
  }

  /**
   * `handle_text` on the current state and the raw message text. A language
   * change is honoured from any state; without a language only a language can be
   * chosen; with one, a direction button always switches the direction; and
   * while a direction is chosen, the text is read as a date.
   */
  function Step(s: Session, raw: string): (r: Outcome)
    ensures AsksLanguageChange(Strip(raw)) ==> r == Outcome(Cleared, ChangeLanguage)
    ensures r.session.lang.None? ==> r.reply == ChangeLanguage || r.reply == UnrecognisedLanguage
    ensures WellFormed(s) ==> WellFormed(r.session)
  {
    var text := Strip(raw);
    if AsksLanguageChange(text) then Outcome(Cleared, ChangeLanguage)
    else if s.lang.None? then ChooseLanguage(s, text)
    else WithLanguage(s, text)
  }

  /**
   * The state without a language: "English" is looked for before "አማርኛ",
   * anything else is not understood, and the direction is left alone.
   */
  function ChooseLanguage(s: Session, text: string): (r: Outcome)
    requires s.lang.None?
    ensures r.session.mode == s.mode
    ensures r.session.lang ==
      if Contains(text, "English") then Some(English)
      else if Contains(text, AmharicMarker) then Some(Amharic)
      else None
    ensures r.reply == if r.session.lang.Some? then LanguageChosen(r.session.lang.value) else UnrecognisedLanguage
  {
    if Contains(text, "English") then Outcome(s.(lang := Some(English)), LanguageChosen(English))
    else if Contains(text, AmharicMarker) then Outcome(s.(lang := Some(Amharic)), LanguageChosen(Amharic))
    else Outcome(s, UnrecognisedLanguage)
  }

  /**
   * The states with a language: a direction button switches the direction,
   * "Ethiopian →" first; without a direction other text is not understood; with
   * one, the text is read as a date. The language is never changed.
   */
  function WithLanguage(s: Session, text: string): (r: Outcome)
    requires s.lang.Some?
    ensures r.session.lang == s.lang
    ensures Contains(text, EthiopianArrow) ==>
      r == Outcome(s.(mode := Some(EthiopianToGregorian)), AskEthiopian(s.lang.value))
    ensures !Contains(text, EthiopianArrow) && Contains(text, GregorianArrow) ==>
      r == Outcome(s.(mode := Some(GregorianToEthiopian)), AskGregorian(s.lang.value))
    ensures !Contains(text, EthiopianArrow) && !Contains(text, GregorianArrow) && s.mode.None? ==>
      r == Outcome(s, UnrecognisedMode(s.lang.value))
  {
    var lang := s.lang.value;
    if Contains(text, EthiopianArrow) then Outcome(s.(mode := Some(EthiopianToGregorian)), AskEthiopian(lang))
    else if Contains(text, GregorianArrow) then Outcome(s.(mode := Some(GregorianToEthiopian)), AskGregorian(lang))
    else if s.mode.None? then Outcome(s, UnrecognisedMode(lang))
    else AwaitDate(s, text)
  }

  /**
   * The state awaiting a date: text that does not look like a date, and every
   * failed attempt, keep the state; a successful conversion drops the direction
   * and keeps the language.
   */
  function AwaitDate(s: Session, text: string): (r: Outcome)
    requires s.lang.Some? && s.mode.Some?
    ensures !LooksLikeDate(text) ==> r == Outcome(s, UnrecognisedDate(s.lang.value, Example(s.mode.value)))
    ensures LooksLikeDate(text) ==> r == Answer(s, AttemptConversion(s.mode.value, text))
  {
    if !LooksLikeDate(text) then Outcome(s, UnrecognisedDate(s.lang.value, Example(s.mode.value)))
    else Answer(s, AttemptConversion(s.mode.value, text))
  }

  /**
   * The reply to an attempt and the state after it: on success the direction is
   * dropped and the reply carries both dates; a ValueError gets the format-error
   * reply when its message is one of `parse_slash_date`'s and the invalid-date
   * reply otherwise; any other exception gets the unexpected-error reply.
   */
  function Answer(s: Session, a: Attempt): (r: Outcome)
    requires s.lang.Some? && s.mode.Some?
    ensures r.session.lang == s.lang
    ensures r.session.mode.None? <==> a.Done?
    ensures r.session.mode.Some? ==> r.session == s
    ensures a.Done? && s.mode.value == EthiopianToGregorian ==>
      r.reply == ConvertedToGregorian(s.lang.value, a.source, a.target)
    ensures a.Done? && s.mode.value == GregorianToEthiopian ==>
      r.reply == ConvertedToEthiopian(s.lang.value, a.source, a.target)
    ensures a.Raised? ==>
      r.reply == if IsFormatError(a.error) then FormatError(s.lang.value, Example(s.mode.value))
                 else InvalidDate(s.lang.value, a.error)
    ensures r.reply.UnexpectedError? <==> a.Crashed?
  {
    var lang, mode := s.lang.value, s.mode.value;
    match a
    case Done(source, target) =>
      var reply :=
        if mode == EthiopianToGregorian then ConvertedToGregorian(lang, source, target)
        else ConvertedToEthiopian(lang, source, target);
      Outcome(s.(mode := None), reply)
    case Raised(e) =>
      Outcome(s, if IsFormatError(e) then FormatError(lang, Example(mode)) else InvalidDate(lang, e))
    case Crashed => Outcome(s, UnexpectedError(lang))
  }

  /** The `try` block run with the converter's own loops, as `AttemptConversion` describes it. */
  method Convert(mode: Mode, text: string) returns (a: Attempt)
    ensures a == AttemptConversion(mode, text)
  {
    match ParseSlashDate(text)
    case WrongPartCount =>
      a := Raised(ParseError(ThreePartsMessage));
    case NotNumbers =>
      a := Raised(ParseError(NumbersMessage));
    case Parsed(y, m, d) =>
      a := ConvertDate(mode, y, m, d);
  }

  /** The rest of the `try` block with the converter's own loops, as `AttemptDate` describes it. */
  method ConvertDate(mode: Mode, year: int, month: int, day: int) returns (a: Attempt)
    ensures a == AttemptDate(mode, year, month, day)
  {
    if mode == EthiopianToGregorian {
      var converted := ToGregorian(year, month, day);
      if converted.Failed? {
        return Raised(ConversionFailure(converted.error));
      }
      if converted.Overflowed? {
        return Crashed;
      }
      var g := converted.date;
      var source, target := FormatEthiopian(year, month, day), FormatGregorian(g.year, g.month, g.day);
      a := if source.Some? && target.Some? then Done(source.value, target.value) else Crashed;
    } else {
      var converted := ToEthiopian(year, month, day);
      if converted.Failed? {
        return Raised(ConversionFailure(converted.error));
      }
      var e := converted.date;
      var source, target := FormatGregorian(year, month, day), FormatEthiopian(e.year, e.month, e.day);
      a := if source.Some? && target.Some? then Done(source.value, target.value) else Crashed;
    }
  }

  // ---------------------------------------------------------------------------
  // The per-user dictionary the handlers change in place

  /** `context.user_data` of one user, with its "lang" and "mode" keys. */
  class UserData {
    var lang: Option<Lang>
    var mode: Option<Mode>

    /** The dictionary's contents. */
    function Contents(): Session
      reads this
    {
      Session(lang, mode)
    }

    /** A user nobody has talked to yet has an empty dictionary. */
    constructor ()
      ensures Contents() == Cleared
    {
      lang := None;
      mode := None;
    }

    /** `start`: clear the dictionary and greet. */
    method Start() returns (reply: Reply)
      modifies this
      ensures Contents() == Cleared && reply == Welcome
    {
      lang := None;
      mode := None;
      reply := Welcome;
    }

    /** `handle_text`, running the converter's own loops, as `Step` describes it. */
    method HandleText(raw: string) returns (reply: Reply)
      modifies this
      ensures Outcome(Contents(), reply) == Step(old(Contents()), raw)
    {
      ghost var s0 := Contents();
      var text := Strip(raw);
      if AsksLanguageChange(text) {
        lang := None;
        mode := None;
        return ChangeLanguage;
      }

      if lang.None? {
        if Contains(text, "English") {
          lang := Some(English);
        } else if Contains(text, AmharicMarker) {
          lang := Some(Amharic);
        } else {
          return UnrecognisedLanguage;
        }
        return LanguageChosen(lang.value);
      }

      assert Step(s0, raw) == WithLanguage(s0, text);
      var current := lang.value;
      if Contains(text, EthiopianArrow) {
        mode := Some(EthiopianToGregorian);
        return AskEthiopian(current);
      }
      if Contains(text, GregorianArrow) {
        mode := Some(GregorianToEthiopian);
        return AskGregorian(current);
      }

      if mode.None? {
        return UnrecognisedMode(current);
      }

      var direction := mode.value;
      var example := Example(direction);
      if !LooksLikeDate(text) {
        return UnrecognisedDate(current, example);
      }

      var attempt := Convert(direction, text);
      assert Step(s0, raw) == Answer(s0, attempt);
      reply := Respond(attempt);
    }

    /** The reply to the `try` block's outcome, dropping the direction after a success. */
    method Respond(attempt: Attempt) returns (reply: Reply)
      requires lang.Some? && mode.Some?
      modifies this
      ensures Outcome(Contents(), reply) == Answer(old(Contents()), attempt)
    {
      var current, direction := lang.value, mode.value;
      match attempt
      case Done(source, target) =>
        reply :=
          if direction == EthiopianToGregorian then ConvertedToGregorian(current, source, target)
          else ConvertedToEthiopian(current, source, target);
        mode := None;
      case Raised(e) =>
        reply := if IsFormatError(e) then FormatError(current, Example(direction)) else InvalidDate(current, e);
      case Crashed =>
        reply := UnexpectedError(current);
    }
  }
}
