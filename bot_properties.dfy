/**
 * What the conversation of bot.py guarantees: how each state reacts to a message,
 * that the buttons do what their labels say, that a failed attempt keeps the user
 * waiting for a date while a successful one asks for a new direction, how errors
 * are routed, and that formatting a converted date never raises.
 */
module BotProperties {
  import opened Wrappers
  import opened Text
  import opened Converter
  import opened Bot
  import ConverterProperties

  // ---------------------------------------------------------------------------
  // The states of `handle_text`

  /** With a language and a direction, text that is neither button is read as a date. */
  lemma ReadAsDate(s: Session, raw: string)
    requires s.lang.Some? && s.mode.Some?
    requires var text := Strip(raw);
      !AsksLanguageChange(text) && !Contains(text, EthiopianArrow) && !Contains(text, GregorianArrow)
    ensures Step(s, raw) == AwaitDate(s, Strip(raw))
  {
    var text := Strip(raw);
    assert Step(s, raw) == WithLanguage(s, text);
  }

  /** Text that is neither a button nor a date attempt: the state and the example are kept. */
  lemma NonDateKeepsWaiting(s: Session, raw: string)
    requires s.lang.Some? && s.mode.Some?
    requires var text := Strip(raw);
      !AsksLanguageChange(text) && !Contains(text, EthiopianArrow) && !Contains(text, GregorianArrow)
    requires !LooksLikeDate(Strip(raw))
    ensures Step(s, raw) == Outcome(s, UnrecognisedDate(s.lang.value, Example(s.mode.value)))
  {
    ReadAsDate(s, raw);
  }

  /**
   * While a date is awaited, the direction is dropped exactly when the text looks
   * like a date, parses, and the converter accepts the date; the language is kept
   * either way, and a failure keeps the whole state.
   */
  lemma AwaitingDate(s: Session, raw: string)
    requires s.lang.Some? && s.mode.Some?
    requires var text := Strip(raw);
      !AsksLanguageChange(text) && !Contains(text, EthiopianArrow) && !Contains(text, GregorianArrow)
    ensures var r := Step(s, raw); var text := Strip(raw); var p := ParseSlashDate(text);
      && r.session.lang == s.lang
      && (r.session.mode.None? <==>
            LooksLikeDate(text) && p.Parsed? && Convertible(s.mode.value, p.year, p.month, p.day))
      && (r.session.mode.Some? ==> r.session == s)
  {
    ReadAsDate(s, raw);
  }

  // ---------------------------------------------------------------------------
  // Errors

  /**
   * A text that looks like a date but does not parse gets the format-error reply
   * with the direction's example; a date the converter rejects gets the
   * invalid-date reply with the converter's error. Both keep the state.
   */
  lemma {:induction false} ErrorRouting(s: Session, raw: string)
    requires s.lang.Some? && s.mode.Some?
    requires var text := Strip(raw);
      !AsksLanguageChange(text) && !Contains(text, EthiopianArrow) && !Contains(text, GregorianArrow)
      && LooksLikeDate(text)
    ensures var text := Strip(raw); var r := Step(s, raw);
      !ParseSlashDate(text).Parsed? ==>
        r == Outcome(s, FormatError(s.lang.value, Example(s.mode.value)))
    ensures var text := Strip(raw); var r := Step(s, raw);
      var a := AttemptConversion(s.mode.value, text);
      a.Raised? && a.error.ConversionFailure? ==> r == Outcome(s, InvalidDate(s.lang.value, a.error))
  {
    ReadAsDate(s, raw);
    var text := Strip(raw);
    var a := AttemptConversion(s.mode.value, text);
    assert Step(s, raw) == Answer(s, a);
    if !ParseSlashDate(text).Parsed? {
      assert a == Raised(ParseError(ParseMessage(ParseSlashDate(text))));
    }
  }

  /**
   * The unexpected-error reply comes exactly when, with a language and the
   * Ethiopian-to-Gregorian direction chosen, a text that looks like a date parses
   * to a valid Ethiopian date whose Gregorian year is beyond a C `int`: then
   * `datetime.date` raises OverflowError, which `except Exception` catches.
   */
  lemma UnexpectedErrorOnlyOnOverflow(s: Session, raw: string)
    ensures Step(s, raw).reply.UnexpectedError? <==>
      var text := Strip(raw); var p := ParseSlashDate(text);
      && !AsksLanguageChange(text) && s.lang.Some? && s.mode == Some(EthiopianToGregorian)
      && !Contains(text, EthiopianArrow) && !Contains(text, GregorianArrow)
      && LooksLikeDate(text) && p.Parsed?
      && IsEthiopianDate(p.year, p.month, p.day) && GregorianFields(p.year, p.month, p.day).year > IntMax
  {
    var text := Strip(raw);
    if AsksLanguageChange(text) {
    } else if s.lang.None? {
      assert Step(s, raw) == ChooseLanguage(s, text);
    } else if Contains(text, EthiopianArrow) || Contains(text, GregorianArrow) || s.mode.None? {
      assert Step(s, raw) == WithLanguage(s, text);
    } else {
      ReadAsDate(s, raw);
      var p := ParseSlashDate(text);
      if p.Parsed? {
        ConverterProperties.OverflowIffYearBeyondCInt(p.year, p.month, p.day);
      }
    }
  }

  // ---------------------------------------------------------------------------
  // The buttons and the documented conversation

  /** The buttons of the bot's keyboards. */
  datatype Key = EnglishKey | AmharicKey | ToGregorianKey | ToEthiopianKey | ChangeLanguageKey

  /** The text a button sends: its label, "English 🇬🇧", "🇪🇹 Ethiopian → 🌍 Gregorian" and so on. */
  function Label(k: Key): string {
    match k
    case EnglishKey => "" + "English" + " \U{1F1EC}\U{1F1E7}"
    case AmharicKey => "" + AmharicMarker + " \U{1F1EA}\U{1F1F9}"
    case ToGregorianKey => "\U{1F1EA}\U{1F1F9} " + EthiopianArrow + " \U{1F30D} Gregorian"
    case ToEthiopianKey => "\U{1F30D} " + GregorianArrow + " \U{1F1EA}\U{1F1F9} Ethiopian"
    case ChangeLanguageKey => "" + "\U{1F310}" + " Change Language"
  }

  /** Stripping a label changes nothing. */
  lemma LabelsAreStripped(k: Key)
    ensures Strip(Label(k)) == Label(k)
  {
    StripKeepsTrimmed(Label(k));
  }

  /** Only the "🌐 Change Language" button asks for a language change. */
  lemma OnlyChangeLanguageKeyAsks(k: Key)
    ensures AsksLanguageChange(Label(k)) <==> k == ChangeLanguageKey
  {
    if k == ChangeLanguageKey {
      ContainsPiece("", "\U{1F310}", " Change Language");
    }
  }

  /**
   * The markers `handle_text` looks for in the labels: the English label holds
   * "English", the Amharic one "አማርኛ" but not "English"; the first direction
   * label holds "Ethiopian →", the second "Gregorian →" but not "Ethiopian →".
   */
  lemma LabelMarkers(k: Key)
    ensures k == EnglishKey ==> Contains(Label(k), "English")
    ensures k == AmharicKey ==> !Contains(Label(k), "English") && Contains(Label(k), AmharicMarker)
    ensures k == ToGregorianKey ==> Contains(Label(k), EthiopianArrow)
    ensures k == ToEthiopianKey ==> !Contains(Label(k), EthiopianArrow) && Contains(Label(k), GregorianArrow)
  {
    var text := Label(k);
    match k
    case EnglishKey => ContainsPiece("", "English", " \U{1F1EC}\U{1F1E7}");
    case AmharicKey =>
      NotContainsByFirstChar(text, "English");
      ContainsPiece("", AmharicMarker, " \U{1F1EA}\U{1F1F9}");
    case ToGregorianKey => ContainsPiece("\U{1F1EA}\U{1F1F9} ", EthiopianArrow, " \U{1F30D} Gregorian");
    case ToEthiopianKey =>
      NotContainsByFirstChar(text, EthiopianArrow);
      ContainsPiece("\U{1F30D} ", GregorianArrow, " \U{1F1EA}\U{1F1F9} Ethiopian");
    case ChangeLanguageKey =>
  }

  /** Without a language, the "English 🇬🇧" button chooses English and keeps the rest. */
  lemma EnglishButton(s: Session)
    requires s.lang.None?
    ensures Step(s, Label(EnglishKey)) == Outcome(s.(lang := Some(English)), LanguageChosen(English))
  {
    LabelsAreStripped(EnglishKey);
    OnlyChangeLanguageKeyAsks(EnglishKey);
    LabelMarkers(EnglishKey);
  }

  /** Without a language, the "አማርኛ 🇪🇹" button chooses Amharic and keeps the rest. */
  lemma AmharicButton(s: Session)
    requires s.lang.None?
    ensures Step(s, Label(AmharicKey)) == Outcome(s.(lang := Some(Amharic)), LanguageChosen(Amharic))
  {
    LabelsAreStripped(AmharicKey);
    OnlyChangeLanguageKeyAsks(AmharicKey);
    LabelMarkers(AmharicKey);
  }

  /** With a language, "🇪🇹 Ethiopian → 🌍 Gregorian" asks for an Ethiopian date, from any direction. */
  lemma ToGregorianButton(s: Session)
    requires s.lang.Some?
    ensures Step(s, Label(ToGregorianKey))
      == Outcome(s.(mode := Some(EthiopianToGregorian)), AskEthiopian(s.lang.value))
  {
    LabelsAreStripped(ToGregorianKey);
    OnlyChangeLanguageKeyAsks(ToGregorianKey);
    LabelMarkers(ToGregorianKey);
  }

  /**
   * With a language, "🌍 Gregorian → 🇪🇹 Ethiopian" asks for a Gregorian date, from
   * any direction, though its label also names the Ethiopian calendar.
   */
  lemma ToEthiopianButton(s: Session)
    requires s.lang.Some?
    ensures Step(s, Label(ToEthiopianKey))
      == Outcome(s.(mode := Some(GregorianToEthiopian)), AskGregorian(s.lang.value))
  {
    LabelsAreStripped(ToEthiopianKey);
    OnlyChangeLanguageKeyAsks(ToEthiopianKey);
    LabelMarkers(ToEthiopianKey);
  }

  /** The "🌐 Change Language" button clears the state from anywhere. */
  lemma ChangeLanguageButton(s: Session)
    ensures Step(s, Label(ChangeLanguageKey)) == Outcome(Cleared, ChangeLanguage)
  {
    LabelsAreStripped(ChangeLanguageKey);
    OnlyChangeLanguageKeyAsks(ChangeLanguageKey);
  }

  /** The Ethiopian example date as the replies print it, "27 ታህሳስ 2017 ዓ.ም", piece by piece. */
  const EthiopianExampleText := "27" + " " + EthiopianMonthNames[3] + " " + "2017" + EraSuffix

  /** The Gregorian example date as the replies print it, "January 5, 2025", piece by piece. */
  const GregorianExampleText := "January" + " " + "5" + ", " + "2025"

  /** Both example dates print as the replies show them. */
  lemma ExamplesFormat()
    ensures FormatEthiopian(2017, 4, 27) == Some(EthiopianExampleText)
    ensures FormatGregorian(2025, 1, 5) == Some(GregorianExampleText)
  {
    assert IntToString(27) == "27";
    assert IntToString(2017) == "2017";
    assert IntToString(5) == "5";
    assert IntToString(2025) == "2025";
  }

  /** Each example parses to the date it spells. */
  lemma ExamplesParse(text: string)
    ensures text == Example(EthiopianToGregorian) ==> ParseSlashDate(text) == Parsed(2017, 4, 27)
    ensures text == Example(GregorianToEthiopian) ==> ParseSlashDate(text) == Parsed(2025, 1, 5)
  {
    if text == Example(EthiopianToGregorian) {
      assert text == IntToString(2017) + "/" + IntToString(4) + "/" + IntToString(27);
      ParseSlashDateOfWritten(2017, 4, 27);
    }
    if text == Example(GregorianToEthiopian) {
      assert text == IntToString(2025) + "/" + IntToString(1) + "/" + IntToString(5);
      ParseSlashDateOfWritten(2025, 1, 5);
    }
  }

  /**
   * The example shown in the Ethiopian-to-Gregorian replies converts as the help
   * text says: 2017/4/27 is 27 Tahsas 2017, 5 January 2025.
   */
  lemma EthiopianExampleConverts(text: string)
    requires text == Example(EthiopianToGregorian)
    ensures AttemptConversion(EthiopianToGregorian, text) == Done(EthiopianExampleText, GregorianExampleText)
  {
    ExamplesParse(text);
    ConverterProperties.HelpExampleToGregorian();
    ExamplesFormat();
  }

  /** The example shown in the Gregorian-to-Ethiopian replies converts back to 27 Tahsas 2017. */
  lemma GregorianExampleConverts(text: string)
    requires text == Example(GregorianToEthiopian)
    ensures AttemptConversion(GregorianToEthiopian, text) == Done(GregorianExampleText, EthiopianExampleText)
  {
    ExamplesParse(text);
    ConverterProperties.HelpExampleToEthiopian();
    ExamplesFormat();
  }
}
