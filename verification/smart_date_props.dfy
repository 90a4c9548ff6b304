/** Properties of the smart date parser as a whole: which patterns can match
    the same text, why going on after a failed validation gives the same
    answer as stopping at the first match, which patterns ignore trailing
    text, the round trip through the canonical formatter, and worked
    examples. */
module SmartDateProps {
  import opened Optional
  import opened JsText
  import opened Calendar
  import opened SmartDate
  import opened SmartDateShapes

  // ---------------------------------------------------------------------
  // Overlap between the patterns
  // ---------------------------------------------------------------------

  /** The separators of the date head of patterns 1 to 5 (0-based). */
  function HeadSeps(k: nat): (seps: set<char>)
    requires k < 5
    ensures seps <= {'-', '/'} && seps != {}
  {
    if k == 0 then {'-'}
    else if k == 1 then {'/'}
    else if k == 2 then {'-'}
    else {'-', '/'}
  }

  /** A match of one of the first five patterns is the date head the
      matcher finds with that pattern's separators. */
  lemma HeadOfMatch(k: nat, s: string)
    requires k < 5 && MatchPattern(k, s).Some?
    ensures DateHead(s, HeadSeps(k)).Some?
    ensures MatchPattern(k, s) == Some(DateHead(s, HeadSeps(k)).value.0)
  {
  }

  /** Which separators are allowed does not change what the date head
      captures, only whether it is found. */
  lemma HeadSepsAgree(s: string, a: set<char>, b: set<char>)
    requires DateHead(s, a).Some? && DateHead(s, b).Some?
    ensures DateHead(s, a) == DateHead(s, b)
  {
  }

  /** A date head starts with four digits and a `-` or `/`. */
  lemma HeadStart(s: string, seps: set<char>)
    requires seps <= {'-', '/'} && DateHead(s, seps).Some?
    ensures |s| > 4 && DigitRun(s, 0) == 4 && s[4] in {'-', '/'}
  {
  }

  /** Two patterns that both match a string are among the first five, and
      capture the same text read in the same order. */
  lemma MatchesAgree(s: string, k: nat, j: nat)
    requires k < j < PatternCount
    requires MatchPattern(k, s).Some? && MatchPattern(j, s).Some?
    ensures j < 5
    ensures MatchPattern(k, s) == MatchPattern(j, s)
    ensures Fields(k, MatchPattern(k, s).value) == Fields(j, MatchPattern(j, s).value)
  {
    if k < 5 {
      HeadOfMatch(k, s);
      HeadStart(s, HeadSeps(k));
      if j < 5 {
        HeadOfMatch(j, s);
        HeadSepsAgree(s, HeadSeps(k), HeadSeps(j));
      }
    }
  }

  // ---------------------------------------------------------------------
  // Going on after a failed validation
  // ---------------------------------------------------------------------

  /** The first pattern from `k` on that matches, with its captures. */
  function FirstMatch(s: string, k: nat): (r: Option<(nat, Captures)>)
    requires k <= PatternCount
    decreases PatternCount - k
    ensures r.Some? ==> k <= r.value.0 < PatternCount && MatchPattern(r.value.0, s) == Some(r.value.1)
    ensures r.Some? ==> forall i :: k <= i < r.value.0 ==> MatchPattern(i, s).None?
    ensures r.None? <==> forall i :: k <= i < PatternCount ==> MatchPattern(i, s).None?
  {
    if k == PatternCount then None
    else
      match MatchPattern(k, s)
      case Some(c) => Some((k, c))
      case None => FirstMatch(s, k + 1)
  }

  /** The reading in which the first matching pattern decides: its fields
      are validated and, when they fail, the parse goes straight to the
      fallback. */
  function StopAtFirstMatch(s: string): Option<JsDate> {
    match FirstMatch(s, 0)
    case None => None
    case Some((k, c)) => Validate(Fields(k, c))
  }

  /** The loop that goes on after a failed validation returns what stopping
      at the first matching pattern returns: every later pattern that
      matches captures the same fields, so it fails the same validation. */
  lemma ContinuingEqualsStopping(s: string)
    ensures PatternPath(s, 0) == StopAtFirstMatch(s)
  {
    match FirstMatch(s, 0)
    case None =>
      assert forall i :: 0 <= i < PatternCount ==> Attempt(i, s).None?;
    case Some((k, c)) =>
      assert forall i :: 0 <= i < k ==> Attempt(i, s).None?;
      assert Attempt(k, s) == Validate(Fields(k, c));
      if Attempt(k, s).None? {
        forall j | k < j < PatternCount ensures Attempt(j, s).None? {
          if MatchPattern(j, s).Some? {
            MatchesAgree(s, k, j);
          }
        }
        assert forall j :: 0 <= j < PatternCount ==> Attempt(j, s).None?;
      } else {
        var r := PatternPath(s, 0);
        var j :| 0 <= j < PatternCount && Attempt(j, s) == r && forall i :: 0 <= i < j ==> Attempt(i, s).None?;
        assert j == k;
      }
  }

  /** The whole parse in the first-match-decides reading. */
  lemma ParseStopsAtFirstMatch(input: string, engine: string -> Option<JsDate>)
    ensures !AllSpace(input) && StopAtFirstMatch(Trim(input)).Some? ==>
              ParseSmartDate(input, engine) == StopAtFirstMatch(Trim(input))
    ensures !AllSpace(input) && StopAtFirstMatch(Trim(input)).None? ==>
              ParseSmartDate(input, engine) == engine(Trim(input))
  {
    ContinuingEqualsStopping(Trim(input));
  }

  // ---------------------------------------------------------------------
  // Trailing text
  // ---------------------------------------------------------------------

  lemma HeadExtends(s: string, c: Captures, seps: set<char>, rest: string, t: string)
    requires Head(s, c, seps, rest)
    ensures Head(s + t, c, seps, rest + t)
  {
    var a, b :| a in seps && b in seps && s == c.first + [a] + c.second + [b] + c.third + rest;
    assert s + t == c.first + [a] + c.second + [b] + c.third + (rest + t);
  }

  lemma IsoExtends(s: string, c: Captures, t: string)
    requires MatchIsoDateTime(s) == Some(c)
    ensures MatchIsoDateTime(s + t) == Some(c)
  {
    IsoDateTimeSound(s);
    var x, u :| (x == 'T' || IsSpace(x)) && Head(s, c, {'-'}, [x] + u) && ClockPrefix(u);
    IsoShift(s, c, t, x, u);
    IsoDateTimeFound(s + t, c, x, u + t);
  }

  lemma IsoShift(s: string, c: Captures, t: string, x: char, u: string)
    requires Head(s, c, {'-'}, [x] + u) && ClockPrefix(u)
    ensures Head(s + t, c, {'-'}, [x] + (u + t)) && ClockPrefix(u + t)
  {
    HeadExtends(s, c, {'-'}, [x] + u, t);
    assert [x] + u + t == [x] + (u + t);
    ClockPrefixExtends(u, t);
  }

  lemma SpacedExtends(s: string, seps: set<char>, c: Captures, t: string)
    requires seps <= {'-', '/'}
    requires MatchSpacedDateTime(s, seps) == Some(c)
    ensures MatchSpacedDateTime(s + t, seps) == Some(c)
  {
    SpacedDateTimeSound(s, seps, c);
    var w, u :| |w| >= 1 && AllSpace(w) && Head(s, c, seps, w + u) && ClockPrefix(u);
    SpacedShift(s, seps, c, t, w, u);
    SpacedDateTimeFound(s + t, seps, c, w, u + t);
  }

  lemma SpacedShift(s: string, seps: set<char>, c: Captures, t: string, w: string, u: string)
    requires Head(s, c, seps, w + u) && ClockPrefix(u)
    ensures Head(s + t, c, seps, w + (u + t)) && ClockPrefix(u + t)
  {
    HeadExtends(s, c, seps, w + u, t);
    assert w + u + t == w + (u + t);
    ClockPrefixExtends(u, t);
  }

  lemma CjkExtends(s: string, c: Captures, t: string)
    requires MatchCjkDate(s) == Some(c)
    ensures MatchCjkDate(s + t) == Some(c)
  {
    CjkDateSpec(s, c);
    var u :| s == c.first + "年" + c.second + "月" + c.third + "日" + u;
    assert s + t == c.first + "年" + c.second + "月" + c.third + "日" + (u + t);
    CjkDateFound(s + t, c, u + t);
  }

  /** Patterns 1 to 4 and 6 are anchored only at the start: whatever follows
      a match (a time zone, say) leaves the match as it was. */
  lemma PrefixPatternsIgnoreSuffix(k: nat, s: string, t: string)
    requires k < 4 || k == 5
    requires MatchPattern(k, s).Some?
    ensures MatchPattern(k, s + t) == MatchPattern(k, s)
  {
    var c := MatchPattern(k, s).value;
    if k == 0 {
      IsoExtends(s, c, t);
    } else if k == 5 {
      CjkExtends(s, c, t);
    } else {
      SpacedExtends(s, HeadSeps(k), c, t);
    }
  }

  /** Patterns 5 and 7 are anchored at both ends: text that does not go on
      with a digit, appended to a match, makes it fail. */
  lemma AnchoredPatternsRejectSuffix(s: string, t: string)
    requires |t| > 0 && !IsDigit(t[0])
    ensures MatchDateOnly(s).Some? ==> MatchDateOnly(s + t).None?
    ensures MatchUsDate(s).Some? ==> MatchUsDate(s + t).None?
  {
    if MatchDateOnly(s).Some? {
      var c := MatchDateOnly(s).value;
      DateOnlySpec(s, c);
      HeadExtends(s, c, {'-', '/'}, [], t);
      assert [] + t == t;
      HeadLocated(s + t, c, {'-', '/'}, t);
    }
    UsDigitsTail(s);
    UsDigitsTail(s + t);
    assert (s + t)[|s|] == t[0];
  }

  /** A US date is at least eight characters long, and from the seventh
      character on it holds only digits of the year. */
  lemma UsDigitsTail(x: string)
    ensures MatchUsDate(x).Some? ==> |x| >= 8 && forall i :: 6 <= i < |x| ==> IsDigit(x[i])
  {
    if MatchUsDate(x).Some? {
      var a := Group12(x, 0).value;
      var b := Group12(x, a + 1).value;
      DigitRunSpec(x, b + 1);
    }
  }

  // ---------------------------------------------------------------------
  // Strings that only a late pattern matches
  // ---------------------------------------------------------------------

  /** A string pattern 5 matches ends with its date head, so no pattern with
      a time part matches it. */
  lemma DateOnlyExcludesTimed(s: string, i: nat)
    requires MatchDateOnly(s).Some? && i < 4
    ensures MatchPattern(i, s).None?
  {
    if MatchPattern(i, s).Some? {
      HeadOfMatch(i, s);
      HeadSepsAgree(s, HeadSeps(i), {'-', '/'});
    }
  }

  /** When pattern 5, 6 or 7 matches, it is the first pattern to match, and
      its fields alone decide the pattern path. */
  lemma LateMatchDecides(s: string, k: nat)
    requires 4 <= k < PatternCount && MatchPattern(k, s).Some?
    ensures FirstMatch(s, 0) == Some((k, MatchPattern(k, s).value))
    ensures PatternPath(s, 0) == Validate(Fields(k, MatchPattern(k, s).value))
  {
    forall i | 0 <= i < k ensures MatchPattern(i, s).None? {
      if k == 4 {
        DateOnlyExcludesTimed(s, i);
      } else if MatchPattern(i, s).Some? {
        MatchesAgree(s, i, k);
      }
    }
    FirstMatchAt(s, k);
    ContinuingEqualsStopping(s);
  }

  /** The first match is at `k` when `k` matches and nothing before it. */
  lemma FirstMatchAt(s: string, k: nat)
    requires k < PatternCount && MatchPattern(k, s).Some?
    requires forall i :: 0 <= i < k ==> MatchPattern(i, s).None?
    ensures FirstMatch(s, 0) == Some((k, MatchPattern(k, s).value))
  {
    var r := FirstMatch(s, 0);
    assert r.Some?;
    assert !(r.value.0 < k);
  }

  /** A string that holds nothing but year, separator, month, separator,
      day parses to the date `f` those fields spell when it is an accepted
      date, and is left to the fallback otherwise. */
  lemma DateOnlyParse(s: string, c: Captures, a: char, b: char, f: CalendarDate, engine: string -> Option<JsDate>)
    requires DateText(c) && a in {'-', '/'} && b in {'-', '/'}
    requires s == c.first + [a] + c.second + [b] + c.third
    requires f == CalendarDate(DigitsValue(c.first), DigitsValue(c.second), DigitsValue(c.third))
    ensures InRange(f) && ValidDate(f) ==> ParseSmartDate(s, engine) == Some(f)
    ensures !(InRange(f) && ValidDate(f)) ==> ParseSmartDate(s, engine) == engine(s)
  {
    DateOnlyMatch(s, c, a, b);
    LateMatchDecides(s, 4);
  }

  lemma DateOnlyMatch(s: string, c: Captures, a: char, b: char)
    requires DateText(c) && a in {'-', '/'} && b in {'-', '/'}
    requires s == c.first + [a] + c.second + [b] + c.third
    ensures MatchDateOnly(s) == Some(c) && Trim(s) == s && !AllSpace(s)
  {
    DateOnlyEnds(s, c, a, b);
    DateOnlyCaptured(s, c, a, b);
    TrimOfUnpadded(s);
  }

  /** A date-only text starts and ends with a digit. */
  lemma DateOnlyEnds(s: string, c: Captures, a: char, b: char)
    requires DateText(c)
    requires s == c.first + [a] + c.second + [b] + c.third
    ensures |s| > 0 && !IsSpace(s[0]) && !IsSpace(s[|s| - 1])
  {
    assert s[0] == c.first[0] && s[|s| - 1] == c.third[|c.third| - 1];
  }

  /** Pattern 5 captures the three fields of a date-only text. */
  lemma DateOnlyCaptured(s: string, c: Captures, a: char, b: char)
    requires DateText(c) && a in {'-', '/'} && b in {'-', '/'}
    requires s == c.first + [a] + c.second + [b] + c.third
    ensures MatchDateOnly(s) == Some(c)
  {
    assert s == c.first + [a] + c.second + [b] + c.third + [];
    HeadFound(s, c, {'-', '/'}, a, b, []);
  }

  // ---------------------------------------------------------------------
  // The formatter and the round trip
  // ---------------------------------------------------------------------

  lemma YearWidth(n: nat)
    requires 1000 <= n <= 9999
    ensures |NatToDecimal(n)| == 4
  {
    var a := n / 10;
    var b := a / 10;
    var c := b / 10;
    assert 1 <= c < 10;
    assert |NatToDecimal(b)| == 2;
    assert |NatToDecimal(a)| == 3;
  }

  /** Month or day padded to two digits. */
  lemma TwoDigits(n: nat)
    requires n < 100
    ensures var r := PadStart(NatToDecimal(n), 2, '0');
            |r| == 2 && AllDigits(r) && DigitsValue(r) == n
  {
    var ds := NatToDecimal(n);
    NatToDecimalValue(n);
    if n < 10 {
      assert |ds| == 1;
      var r := PadStart(ds, 2, '0');
      assert r == ['0'] + ds;
      LeadingZeroValue(ds);
    } else {
      assert |NatToDecimal(n / 10)| == 1;
    }
  }

  /** The formatter writes the year as it is and month and day as exactly
      two digits each, behind a `-`: the three fields can be read back from
      fixed positions at the end of the text. */
  lemma FormatFields(d: JsDate)
    ensures var s := FormatToYyyyMmDd(d);
            var n := |s|;
            && n >= 7 && s[..n - 6] == IntToDecimal(d.year)
            && s[n - 6] == '-' && s[n - 3] == '-'
            && AllDigits(s[n - 5..n - 3]) && DigitsValue(s[n - 5..n - 3]) == d.month
            && AllDigits(s[n - 2..]) && DigitsValue(s[n - 2..]) == d.day
  {
    TwoDigits(d.month);
    TwoDigits(d.day);
    IntToDecimalChars(d.year);
    FixedTail(FormatToYyyyMmDd(d), IntToDecimal(d.year),
              PadStart(NatToDecimal(d.month), 2, '0'), PadStart(NatToDecimal(d.day), 2, '0'));
  }

  /** Two two-character fields behind `-` sit at fixed distances from the
      end. */
  lemma FixedTail(s: string, y: string, mm: string, dd: string)
    requires |mm| == 2 && |dd| == 2 && s == y + "-" + mm + "-" + dd
    ensures var n := |s|;
            && n == |y| + 6 && s[..n - 6] == y && s[n - 6] == '-' && s[n - 3] == '-'
            && s[n - 5..n - 3] == mm && s[n - 2..] == dd
  {
  }

  /** Parsing the formatter's output of an accepted date gives the date
      back, through pattern 5. */
  lemma FormatThenParse(d: JsDate, engine: string -> Option<JsDate>)
    requires InRange(d)
    ensures ParseSmartDate(FormatToYyyyMmDd(d), engine) == Some(d)
  {
    var y := NatToDecimal(d.year);
    var mm := PadStart(NatToDecimal(d.month), 2, '0');
    var dd := PadStart(NatToDecimal(d.day), 2, '0');
    YearWidth(d.year);
    NatToDecimalValue(d.year);
    TwoDigits(d.month);
    TwoDigits(d.day);
    var c := Captures(y, mm, dd);
    assert FormatToYyyyMmDd(d) == c.first + ['-'] + c.second + ['-'] + c.third;
    DateOnlyParse(FormatToYyyyMmDd(d), c, '-', '-', d, engine);
  }

  // ---------------------------------------------------------------------
  // Worked examples, one per input style the parser names
  // ---------------------------------------------------------------------

  /** The value of a short digit string, digit by digit. */
  lemma ValueOfDigits(a: char, b: char, c: char, d: char)
    ensures DigitsValue([a]) == DigitValue(a)
    ensures DigitsValue([a, b]) == DigitValue(a) * 10 + DigitValue(b)
    ensures DigitsValue([a, b, c, d]) == ((DigitValue(a) * 10 + DigitValue(b)) * 10 + DigitValue(c)) * 10 + DigitValue(d)
  {
    assert [a][..0] == [];
    assert RadixValue([a], 10) == RadixValue([], 10) * 10 + DigitValue(a);
    assert [a, b][..1] == [a];
    assert [a, b, c][..2] == [a, b];
    assert RadixValue([a, b, c], 10) == RadixValue([a, b], 10) * 10 + DigitValue(c);
    assert [a, b, c, d][..3] == [a, b, c];
  }

  /** The values of the digit strings the examples use. */
  lemma FieldValues()
    ensures DigitsValue("1969") == 1969 && DigitsValue("2023") == 2023
    ensures DigitsValue("2024") == 2024 && DigitsValue("2026") == 2026
    ensures DigitsValue("4") == 4 && DigitsValue("02") == 2 && DigitsValue("04") == 4
    ensures DigitsValue("12") == 12 && DigitsValue("16") == 16 && DigitsValue("29") == 29
    ensures DigitsValue("30") == 30 && DigitsValue("31") == 31
  {
    ValueOfDigits('1', '9', '6', '9');
    ValueOfDigits('2', '0', '2', '3');
    ValueOfDigits('2', '0', '2', '4');
    ValueOfDigits('2', '0', '2', '6');
    ValueOfDigits('4', '0', '0', '0');
    ValueOfDigits('0', '2', '0', '0');
    ValueOfDigits('0', '4', '0', '0');
    ValueOfDigits('1', '2', '0', '0');
    ValueOfDigits('1', '6', '0', '0');
    ValueOfDigits('2', '9', '0', '0');
    ValueOfDigits('3', '0', '0', '0');
    ValueOfDigits('3', '1', '0', '0');
  }

  /** Which of the example dates are accepted ones. */
  lemma ExampleDates()
    ensures InRange(CalendarDate(2026, 4, 16)) && ValidDate(CalendarDate(2026, 4, 16))
    ensures InRange(CalendarDate(2024, 2, 29)) && ValidDate(CalendarDate(2024, 2, 29))
    ensures !ValidDate(CalendarDate(2023, 2, 29)) && !ValidDate(CalendarDate(2026, 2, 30))
    ensures !InRange(CalendarDate(1969, 12, 31))
  {
    assert IsLeapYear(2024) && !IsLeapYear(2023) && !IsLeapYear(2026);
  }

  lemma ExampleSlashedDate(engine: string -> Option<JsDate>)
    ensures ParseSmartDate("2026/04/16", engine) == Some(CalendarDate(2026, 4, 16))
  {
    FieldValues();
    ExampleDates();
    DateOnlyParse("2026/04/16", Captures("2026", "04", "16"), '/', '/', CalendarDate(2026, 4, 16), engine);
  }

  lemma ExampleDashedDate(engine: string -> Option<JsDate>)
    ensures ParseSmartDate("2026-04-16", engine) == Some(CalendarDate(2026, 4, 16))
  {
    FieldValues();
    ExampleDates();
    DateOnlyParse("2026-04-16", Captures("2026", "04", "16"), '-', '-', CalendarDate(2026, 4, 16), engine);
  }

  /** 30 February does not exist: the pattern path rejects it instead of
      rolling over into March, and the fallback decides. */
  lemma ExampleThirtiethOfFebruary(engine: string -> Option<JsDate>)
    ensures ParseSmartDate("2026-02-30", engine) == engine("2026-02-30")
  {
    FieldValues();
    ExampleDates();
    DateOnlyParse("2026-02-30", Captures("2026", "02", "30"), '-', '-', CalendarDate(2026, 2, 30), engine);
  }

  /** 29 February exists only in a leap year. */
  lemma ExampleCommonYearLeapDay(engine: string -> Option<JsDate>)
    ensures ParseSmartDate("2023-02-29", engine) == engine("2023-02-29")
  {
    FieldValues();
    ExampleDates();
    DateOnlyParse("2023-02-29", Captures("2023", "02", "29"), '-', '-', CalendarDate(2023, 2, 29), engine);
  }

  lemma ExampleLeapDay(engine: string -> Option<JsDate>)
    ensures ParseSmartDate("2024-02-29", engine) == Some(CalendarDate(2024, 2, 29))
  {
    FieldValues();
    ExampleDates();
    DateOnlyParse("2024-02-29", Captures("2024", "02", "29"), '-', '-', CalendarDate(2024, 2, 29), engine);
  }

  /** Before 1970 the pattern path gives up. */
  lemma ExampleBeforeRange(engine: string -> Option<JsDate>)
    ensures ParseSmartDate("1969-12-31", engine) == engine("1969-12-31")
  {
    FieldValues();
    ExampleDates();
    DateOnlyParse("1969-12-31", Captures("1969", "12", "31"), '-', '-', CalendarDate(1969, 12, 31), engine);
  }

  lemma ExampleUsDate(engine: string -> Option<JsDate>)
    ensures ParseSmartDate("04/16/2026", engine) == Some(CalendarDate(2026, 4, 16))
  {
    var c := Captures("04", "16", "2026");
    UsDateFound("04/16/2026", c);
    SampleFieldsAccepted();
    LateParse("04/16/2026", 6, c, engine);
  }

  lemma ExampleCjkDate(engine: string -> Option<JsDate>)
    ensures ParseSmartDate("2026年4月16日", engine) == Some(CalendarDate(2026, 4, 16))
  {
    var c := Captures("2026", "4", "16");
    CjkDateFound("2026年4月16日", c, "");
    SampleFieldsAccepted();
    LateParse("2026年4月16日", 5, c, engine);
  }

  /** 16 April 2026 as patterns 6 and 7 capture it. */
  lemma SampleFieldsAccepted()
    ensures Validate(Fields(5, Captures("2026", "4", "16"))) == Some(CalendarDate(2026, 4, 16))
    ensures Validate(Fields(6, Captures("04", "16", "2026"))) == Some(CalendarDate(2026, 4, 16))
  {
    FieldValues();
    ExampleDates();
  }

  /** Parse of a string with no whitespace at either end that one of
      patterns 5 to 7 matches. */
  lemma LateParse(s: string, k: nat, c: Captures, engine: string -> Option<JsDate>)
    requires 4 <= k < PatternCount && MatchPattern(k, s) == Some(c)
    requires !IsSpace(s[0]) && !IsSpace(s[|s| - 1])
    ensures Validate(Fields(k, c)).Some? ==> ParseSmartDate(s, engine) == Validate(Fields(k, c))
    ensures Validate(Fields(k, c)).None? ==> ParseSmartDate(s, engine) == engine(s)
  {
    LateMatchDecides(s, k);
    TrimOfUnpadded(s);
  }

  /** A date-time with `/` separators: pattern 2 matches and the time is
      dropped (with text after the time, `PrefixPatternsIgnoreSuffix` says
      the match stays the same). */
  lemma ExampleSlashedDateTime(engine: string -> Option<JsDate>)
    ensures ParseSmartDate("2026/04/16 23:59:59", engine) == Some(CalendarDate(2026, 4, 16))
  {
    SlashedDateTimeMatch();
    SampleEnds("2026/04/16 23:59:59");
    SampleDateAccepted();
    FirstParse("2026/04/16 23:59:59", 1, Captures("2026", "04", "16"), engine);
  }

  lemma SlashedDateTimeMatch()
    ensures forall i :: 0 <= i < 1 ==> MatchPattern(i, "2026/04/16 23:59:59").None?
    ensures MatchPattern(1, "2026/04/16 23:59:59") == Some(Captures("2026", "04", "16"))
  {
    SlashedDateTimePieces();
    SpacedDateTimeFound("2026/04/16 23:59:59", {'/'}, Captures("2026", "04", "16"), " ", "23:59:59");
    IsoNeedsDash("2026/04/16 23:59:59");
  }

  lemma SlashedDateTimePieces()
    ensures Head("2026/04/16 23:59:59", Captures("2026", "04", "16"), {'/'}, " " + "23:59:59")
    ensures ClockPrefix("23:59:59") && AllSpace(" ")
  {
    var c := Captures("2026", "04", "16");
    assert "2026/04/16 23:59:59" == c.first + ['/'] + c.second + ['/'] + c.third + (" " + "23:59:59");
    assert "23:59:59" == "23" + ":" + "59" + ":" + "59" + "";
  }

  lemma ExampleIsoDateTime(engine: string -> Option<JsDate>)
    ensures ParseSmartDate("2026-04-16T23:59:59", engine) == Some(CalendarDate(2026, 4, 16))
  {
    IsoDateTimeMatch();
    SampleEnds("2026-04-16T23:59:59");
    SampleDateAccepted();
    FirstParse("2026-04-16T23:59:59", 0, Captures("2026", "04", "16"), engine);
  }

  lemma IsoDateTimeMatch()
    ensures MatchPattern(0, "2026-04-16T23:59:59") == Some(Captures("2026", "04", "16"))
  {
    IsoDateTimePieces();
    IsoDateTimeFound("2026-04-16T23:59:59", Captures("2026", "04", "16"), 'T', "23:59:59");
  }

  lemma IsoDateTimePieces()
    ensures Head("2026-04-16T23:59:59", Captures("2026", "04", "16"), {'-'}, ['T'] + "23:59:59")
    ensures ClockPrefix("23:59:59")
  {
    var c := Captures("2026", "04", "16");
    assert "2026-04-16T23:59:59" == c.first + ['-'] + c.second + ['-'] + c.third + (['T'] + "23:59:59");
    assert "23:59:59" == "23" + ":" + "59" + ":" + "59" + "";
  }

  /** A sample that starts with a digit and ends with one. */
  lemma SampleEnds(s: string)
    requires |s| > 0 && IsDigit(s[0]) && IsDigit(s[|s| - 1])
    ensures !IsSpace(s[0]) && !IsSpace(s[|s| - 1])
  {
  }

  /** 16 April 2026 as the first five patterns capture it. */
  lemma SampleDateAccepted()
    ensures forall k :: 0 <= k < 5 ==> Validate(Fields(k, Captures("2026", "04", "16"))) == Some(CalendarDate(2026, 4, 16))
  {
    FieldValues();
  }

  /** Pattern 1 wants a `-` after the year. */
  lemma IsoNeedsDash(s: string)
    ensures MatchIsoDateTime(s).Some? ==> |s| > 4 && s[4] == '-'
  {
  }

  /** Parse of a string with no whitespace at either end whose first
      matching pattern is `k`. */
  lemma FirstParse(s: string, k: nat, c: Captures, engine: string -> Option<JsDate>)
    requires k < PatternCount && MatchPattern(k, s) == Some(c)
    requires forall i :: 0 <= i < k ==> MatchPattern(i, s).None?
    requires !IsSpace(s[0]) && !IsSpace(s[|s| - 1])
    ensures Validate(Fields(k, c)).Some? ==> ParseSmartDate(s, engine) == Validate(Fields(k, c))
    ensures Validate(Fields(k, c)).None? ==> ParseSmartDate(s, engine) == engine(s)
  {
    FirstMatchAt(s, k);
    ContinuingEqualsStopping(s);
    TrimOfUnpadded(s);
  }

  lemma ExampleEmpty(engine: string -> Option<JsDate>)
    ensures ParseSmartDate("", engine) == None
  {
    assert AllSpace("");
  }

  lemma ExampleBlank(engine: string -> Option<JsDate>)
    ensures ParseSmartDate(" \t\U{3000}", engine) == None
  {
    var blank := " \t\U{3000}";
    assert IsSpace(blank[0]) && IsSpace(blank[1]) && IsSpace(blank[2]);
    assert AllSpace(blank);
  }
}
