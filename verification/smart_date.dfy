/** The tolerant date parser and the canonical formatter of the smart date
    input (web/src/components/SmartDateInput.tsx): seven regular-expression
    shapes tried in a fixed order, a range and calendar check on the
    captured fields, and a last-resort parse by the JavaScript engine. */
module SmartDate {
  import opened Optional
  import opened JsText
  import opened Calendar

  /** What a JavaScript `Date` reports through its local-time getters. */
  type JsDate = d: CalendarDate | ValidDate(d) witness CalendarDate(1970, 1, 1)

  /** The three capture groups a pattern yields, as text. */
  datatype Captures = Captures(first: string, second: string, third: string)

  // ---------------------------------------------------------------------
  // Regular-expression building blocks
  // ---------------------------------------------------------------------

  /** Length of the run of ASCII digits (`\d`) starting at `i`. */
  function DigitRun(s: string, i: nat): (n: nat)
    requires i <= |s|
    ensures i + n <= |s|
    decreases |s| - i
  {
    if i < |s| && IsDigit(s[i]) then 1 + DigitRun(s, i + 1) else 0
  }

  /** The run is all digits and stops at the end or at a non-digit. */
  lemma {:induction false} DigitRunSpec(s: string, i: nat)
    requires i <= |s|
    ensures forall k :: i <= k < i + DigitRun(s, i) ==> IsDigit(s[k])
    ensures i + DigitRun(s, i) == |s| || !IsDigit(s[i + DigitRun(s, i)])
    decreases |s| - i
  {
    if i < |s| && IsDigit(s[i]) {
      DigitRunSpec(s, i + 1);
    }
  }

  /** Length of the run of `\s` characters starting at `i`. */
  function SpaceRun(s: string, i: nat): (n: nat)
    requires i <= |s|
    ensures i + n <= |s|
    decreases |s| - i
  {
    if i < |s| && IsSpace(s[i]) then 1 + SpaceRun(s, i + 1) else 0
  }

  /** The run is all whitespace and stops at the end or at a non-space. */
  lemma {:induction false} SpaceRunSpec(s: string, i: nat)
    requires i <= |s|
    ensures forall k :: i <= k < i + SpaceRun(s, i) ==> IsSpace(s[k])
    ensures i + SpaceRun(s, i) == |s| || !IsSpace(s[i + SpaceRun(s, i)])
    decreases |s| - i
  {
    if i < |s| && IsSpace(s[i]) {
      SpaceRunSpec(s, i + 1);
    }
  }

  /** A group `(\d{1,2})` at `i` whose continuation starts with a non-digit:
      the only way to match it is with the whole digit run, which must
      therefore be one or two digits long. Yields the end of the group. */
  function Group12(s: string, i: nat): (r: Option<nat>)
    requires i <= |s|
    ensures r.Some? ==> i < r.value <= |s| && r.value == i + DigitRun(s, i)
  {
    var n := DigitRun(s, i);
    if 1 <= n <= 2 then Some(i + n) else None
  }

  /** `^(\d{4})S(\d{1,2})S(\d{1,2})` with each `S` one character of `seps`,
      for a continuation that starts with a non-digit (or is the end of
      input). Yields the captures and where the day group ends. */
  function DateHead(s: string, seps: set<char>): Option<(Captures, nat)>
  {
    if |s| > 4 && DigitRun(s, 0) == 4 && s[4] in seps then
      match Group12(s, 5)
      case None => None
      case Some(me) =>
        if me < |s| && s[me] in seps then
          match Group12(s, me + 1)
          case None => None
          case Some(de) => Some((Captures(s[..4], s[5..me], s[me + 1..de]), de))
        else None
    else None
  }

  /** `^(\d{1,2}):(\d{1,2}):(\d{1,2})` as a prefix of `u`. The seconds group
      is the last item of the pattern, so one digit is enough for a match. */
  predicate ClockAt(u: string) {
    match Group12(u, 0)
    case None => false
    case Some(h) =>
      h < |u| && u[h] == ':' &&
      match Group12(u, h + 1)
      case None => false
      case Some(mi) => mi + 1 < |u| && u[mi] == ':' && IsDigit(u[mi + 1])
  }

  // ---------------------------------------------------------------------
  // The seven patterns
  // ---------------------------------------------------------------------

  /** Pattern 1, `^(\d{4})-(\d{1,2})-(\d{1,2})(?:T|\s)(\d{1,2}):(\d{1,2}):(\d{1,2})`. */
  function MatchIsoDateTime(s: string): Option<Captures> {
    match DateHead(s, {'-'})
    case None => None
    case Some((c, e)) =>
      if e < |s| && (s[e] == 'T' || IsSpace(s[e])) && ClockAt(s[e + 1..]) then Some(c) else None
  }

  /** Patterns 2, 3 and 4: `^(\d{4})S(\d{1,2})S(\d{1,2})\s+(\d{1,2}):(\d{1,2}):(\d{1,2})`
      with `S` ranging over `seps` (`/`, `-`, and `[-/]` respectively). The
      `\s+` run is followed by a digit, so it is the whole whitespace run. */
  function MatchSpacedDateTime(s: string, seps: set<char>): Option<Captures> {
    match DateHead(s, seps)
    case None => None
    case Some((c, e)) =>
      var w := SpaceRun(s, e);
      if w >= 1 && ClockAt(s[e + w..]) then Some(c) else None
  }

  /** Pattern 5, `^(\d{4})[-/](\d{1,2})[-/](\d{1,2})$`. */
  function MatchDateOnly(s: string): Option<Captures> {
    match DateHead(s, {'-', '/'})
    case None => None
    case Some((c, e)) => if e == |s| then Some(c) else None
  }

  /** Pattern 6, `^(\d{4})年(\d{1,2})月(\d{1,2})日`. */
  function MatchCjkDate(s: string): Option<Captures> {
    if |s| > 4 && DigitRun(s, 0) == 4 && s[4] == '年' then
      match Group12(s, 5)
      case None => None
      case Some(me) =>
        if me < |s| && s[me] == '月' then
          match Group12(s, me + 1)
          case None => None
          case Some(de) =>
            if de < |s| && s[de] == '日' then Some(Captures(s[..4], s[5..me], s[me + 1..de])) else None
        else None
    else None
  }

  /** Pattern 7, `^(\d{1,2})\/(\d{1,2})\/(\d{4})$` (month, day, year). */
  function MatchUsDate(s: string): Option<Captures> {
    match Group12(s, 0)
    case None => None
    case Some(a) =>
      if a < |s| && s[a] == '/' then
        match Group12(s, a + 1)
        case None => None
        case Some(b) =>
          if b < |s| && s[b] == '/' && DigitRun(s, b + 1) == 4 && b + 5 == |s|
          then Some(Captures(s[..a], s[a + 1..b], s[b + 1..]))
          else None
      else None
  }

  const PatternCount: nat := 7

  /** The pattern table, in the order the parser tries it (0-based). */
  function MatchPattern(k: nat, s: string): Option<Captures>
    requires k < PatternCount
  {
    if k == 0 then MatchIsoDateTime(s)
    else if k == 1 then MatchSpacedDateTime(s, {'/'})
    else if k == 2 then MatchSpacedDateTime(s, {'-'})
    else if k == 3 then MatchSpacedDateTime(s, {'-', '/'})
    else if k == 4 then MatchDateOnly(s)
    else if k == 5 then MatchCjkDate(s)
    else MatchUsDate(s)
  }

  // ---------------------------------------------------------------------
  // Validation and the parse
  // ---------------------------------------------------------------------

  const MinYear: int := 1970
  const MaxYear: int := 2100

  /** Inside the accepted year range. */
  predicate InRange(d: CalendarDate) {
    MinYear <= d.year <= MaxYear
  }

  /** The fields a match of pattern `k` stands for: the last pattern reads
      month, day, year; every other one reads year, month, day. */
  function Fields(k: nat, c: Captures): CalendarDate {
    if k == PatternCount - 1
    then CalendarDate(DigitsValue(c.third), DigitsValue(c.first), DigitsValue(c.second))
    else CalendarDate(DigitsValue(c.first), DigitsValue(c.second), DigitsValue(c.third))
  }

  /** The range test followed by the `new Date(y, m - 1, d)` round trip. */
  function Validate(f: CalendarDate): (r: Option<JsDate>)
    ensures r.Some? <==> InRange(f) && ValidDate(f)
    ensures r.Some? ==> r.value == f
  {
    if MinYear <= f.year <= MaxYear && 1 <= f.month <= 12 && 1 <= f.day <= 31 then
      var back := ConstructedDate(f.year, f.month, f.day);
      if back == f then Some(back) else None
    else None
  }

  /** One iteration of the loop: pattern `k` matches and its fields pass
      validation. */
  function Attempt(k: nat, s: string): Option<JsDate>
    requires k < PatternCount
  {
    match MatchPattern(k, s)
    case None => None
    case Some(c) => Validate(Fields(k, c))
  }

  /** The loop from pattern `k` on: a match that fails validation does not
      stop it; it goes on with the next pattern. */
  function PatternPath(s: string, k: nat): (r: Option<JsDate>)
    requires k <= PatternCount
    decreases PatternCount - k
    ensures r.Some? ==> InRange(r.value)
    ensures r.None? <==> forall j :: k <= j < PatternCount ==> Attempt(j, s).None?
    ensures r.Some? ==> exists j :: k <= j < PatternCount && Attempt(j, s) == r &&
                                    forall i :: k <= i < j ==> Attempt(i, s).None?
  {
    if k == PatternCount then None
    else
      match Attempt(k, s)
      case Some(d) => Some(d)
      case None => PatternPath(s, k + 1)
  }

  /** `parseSmartDate`, with `engine` standing for `new Date(trimmed)`
      followed by the `isNaN(getTime())` test (`None` is an invalid date). */
  function ParseSmartDate(input: string, engine: string -> Option<JsDate>): (r: Option<JsDate>)
    ensures AllSpace(input) ==> r.None?
    ensures !AllSpace(input) && PatternPath(Trim(input), 0).Some? ==>
              r == PatternPath(Trim(input), 0) && InRange(r.value)
    ensures !AllSpace(input) && PatternPath(Trim(input), 0).None? ==> r == engine(Trim(input))
  {
    var trimmed := Trim(input);
    if trimmed == [] then None
    else
      match PatternPath(trimmed, 0)
      case Some(d) => Some(d)
      case None => engine(trimmed)
  }

  // ---------------------------------------------------------------------
  // The formatter
  // ---------------------------------------------------------------------

  /** `formatToYYYYMMDD`: the year as `String(year)`, month and day
      zero-padded to two digits, joined by `-`. */
  function FormatToYyyyMmDd(d: JsDate): string {
    IntToDecimal(d.year) + "-" + PadStart(NatToDecimal(d.month), 2, '0') + "-" + PadStart(NatToDecimal(d.day), 2, '0')
  }
}
