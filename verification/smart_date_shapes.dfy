/** What each of the seven patterns of the smart date input accepts, stated
    as a decomposition of the input string into the pieces the regular
    expression names, and proved equivalent to the matcher. */
module SmartDateShapes {
  import opened Optional
  import opened JsText
  import opened Calendar
  import opened SmartDate

  /** Captures of `(\d{4})`, `(\d{1,2})`, `(\d{1,2})`. */
  predicate DateText(c: Captures) {
    && |c.first| == 4 && AllDigits(c.first)
    && 1 <= |c.second| <= 2 && AllDigits(c.second)
    && 1 <= |c.third| <= 2 && AllDigits(c.third)
  }

  /** Captures of `(\d{1,2})`, `(\d{1,2})`, `(\d{4})`. */
  predicate UsText(c: Captures) {
    && 1 <= |c.first| <= 2 && AllDigits(c.first)
    && 1 <= |c.second| <= 2 && AllDigits(c.second)
    && |c.third| == 4 && AllDigits(c.third)
  }

  /** `s` is year, separator, month, separator, day, then `rest`. */
  ghost predicate Head(s: string, c: Captures, seps: set<char>, rest: string) {
    DateText(c) &&
    exists a, b :: a in seps && b in seps && s == c.first + [a] + c.second + [b] + c.third + rest
  }

  /** `u` starts with `H:M:S`, each field one or two digits. */
  ghost predicate ClockPrefix(u: string) {
    exists h, mi, sec, rest ::
      && 1 <= |h| <= 2 && AllDigits(h)
      && 1 <= |mi| <= 2 && AllDigits(mi)
      && 1 <= |sec| <= 2 && AllDigits(sec)
      && u == h + ":" + mi + ":" + sec + rest
  }

  // ---------------------------------------------------------------------
  // Runs
  // ---------------------------------------------------------------------

  lemma {:induction false} DigitRunAt(s: string, i: nat, n: nat)
    requires i + n <= |s|
    requires forall k :: i <= k < i + n ==> IsDigit(s[k])
    requires i + n == |s| || !IsDigit(s[i + n])
    ensures DigitRun(s, i) == n
    decreases n
  {
    if n > 0 {
      DigitRunAt(s, i + 1, n - 1);
    }
  }

  lemma {:induction false} SpaceRunAt(s: string, i: nat, n: nat)
    requires i + n <= |s|
    requires forall k :: i <= k < i + n ==> IsSpace(s[k])
    requires i + n == |s| || !IsSpace(s[i + n])
    ensures SpaceRun(s, i) == n
    decreases n
  {
    if n > 0 {
      SpaceRunAt(s, i + 1, n - 1);
    }
  }

  // ---------------------------------------------------------------------
  // The date head and the clock
  // ---------------------------------------------------------------------

  /** A run read off a slice: `s[i..j]` is digits and `j` ends it. */
  lemma RunOfSlice(s: string, i: nat, j: nat)
    requires i <= j <= |s| && AllDigits(s[i..j])
    requires j == |s| || !IsDigit(s[j])
    ensures DigitRun(s, i) == j - i
  {
    forall k | i <= k < j
      ensures IsDigit(s[k])
    {
      assert s[k] == s[i..j][k - i];
    }
    DigitRunAt(s, i, j - i);
  }

  /** The digit run at `i`, as a slice. */
  lemma SliceOfRun(s: string, i: nat)
    requires i <= |s|
    ensures AllDigits(s[i..i + DigitRun(s, i)])
    ensures i + DigitRun(s, i) == |s| || !IsDigit(s[i + DigitRun(s, i)])
  {
    DigitRunSpec(s, i);
    var n := DigitRun(s, i);
    var run := s[i..i + n];
    forall k | 0 <= k < n
      ensures IsDigit(run[k])
    {
      assert run[k] == s[i + k];
    }
  }

  // ---------------------------------------------------------------------
  // Cutting a string at its separators
  // ---------------------------------------------------------------------

  /** The pieces of `x1 a x2 b x3 rest`, by position. */
  lemma Cut(s: string, x1: string, a: char, x2: string, b: char, x3: string, rest: string)
    requires s == x1 + [a] + x2 + [b] + x3 + rest
    ensures var i := |x1|; var j := i + 1 + |x2|; var k := j + 1 + |x3|;
            && k + |rest| == |s| && s[..i] == x1 && s[0..i] == x1 && s[i] == a
            && s[i + 1..j] == x2 && s[j] == b && s[j + 1..k] == x3 && s[k..] == rest
  {
  }

  /** `s` glued back from the pieces around the characters at `i` and `j`. */
  lemma Reassemble(s: string, i: nat, j: nat, k: nat)
    requires i < j < k <= |s|
    ensures s == s[..i] + [s[i]] + s[i + 1..j] + [s[j]] + s[j + 1..k] + s[k..]
  {
    assert s[..i] + [s[i]] == s[..i + 1];
    assert s[..i + 1] + s[i + 1..j] == s[..j];
    assert s[..j] + [s[j]] == s[..j + 1];
    assert s[..j + 1] + s[j + 1..k] == s[..k];
  }

  // ---------------------------------------------------------------------
  // The date head and the clock
  // ---------------------------------------------------------------------

  /** A date head at fixed positions: the year in `0..4`, separators at
      `4` and `me`, the month before `me` and the day up to `de`. */
  predicate HeadCut(s: string, c: Captures, seps: set<char>, me: nat, de: nat) {
    && DateText(c) && me == 5 + |c.second| && de == me + 1 + |c.third| && de <= |s|
    && s[0..4] == c.first && s[..4] == c.first && s[4] in seps
    && s[5..me] == c.second && s[me] in seps && s[me + 1..de] == c.third
  }

  /** The positions of a head written as a concatenation. */
  lemma HeadCutOf(s: string, c: Captures, seps: set<char>, a: char, b: char, rest: string) returns (me: nat, de: nat)
    requires a in seps && b in seps && DateText(c)
    requires s == c.first + [a] + c.second + [b] + c.third + rest
    ensures HeadCut(s, c, seps, me, de) && de + |rest| == |s| && s[de..] == rest
  {
    me := 5 + |c.second|;
    de := me + 1 + |c.third|;
    Cut(s, c.first, a, c.second, b, c.third, rest);
  }

  /** The matcher finds a head at those positions when a non-digit ends
      it. */
  lemma HeadOfCut(s: string, c: Captures, seps: set<char>, me: nat, de: nat)
    requires seps <= {'-', '/'} && HeadCut(s, c, seps, me, de)
    requires de == |s| || !IsDigit(s[de])
    ensures DateHead(s, seps) == Some((c, de))
  {
    RunOfSlice(s, 0, 4);
    RunOfSlice(s, 5, me);
    RunOfSlice(s, me + 1, de);
    HeadAt(s, c, seps, me, de);
  }

  lemma HeadFound(s: string, c: Captures, seps: set<char>, a: char, b: char, rest: string)
    requires seps <= {'-', '/'} && a in seps && b in seps
    requires DateText(c)
    requires s == c.first + [a] + c.second + [b] + c.third + rest
    requires rest == [] || !IsDigit(rest[0])
    ensures DateHead(s, seps) == Some((c, |s| - |rest|))
  {
    var me, de := HeadCutOf(s, c, seps, a, b, rest);
    assert de < |s| ==> s[de] == rest[0];
    HeadOfCut(s, c, seps, me, de);
  }

  /** The matcher's view of a date head: each group's digit run and the
      separators after the first two. */
  lemma HeadAt(s: string, c: Captures, seps: set<char>, me: nat, de: nat)
    requires DateText(c)
    requires |s| > 4 && DigitRun(s, 0) == 4 && s[4] in seps && s[..4] == c.first
    requires me == 5 + |c.second| && me < |s| && DigitRun(s, 5) == |c.second| && s[5..me] == c.second && s[me] in seps
    requires de == me + 1 + |c.third| && de <= |s| && DigitRun(s, me + 1) == |c.third| && s[me + 1..de] == c.third
    ensures DateHead(s, seps) == Some((c, de))
  {
  }

  lemma HeadSound(s: string, seps: set<char>)
    requires DateHead(s, seps).Some?
    ensures var (c, e) := DateHead(s, seps).value;
            e <= |s| && Head(s, c, seps, s[e..]) && (e == |s| || !IsDigit(s[e]))
  {
    var (c, e) := DateHead(s, seps).value;
    var me := HeadParts(s, seps);
    HeadOfParts(s, c, seps, me, e);
  }

  /** Where the matcher's date head puts its groups and separators. */
  lemma HeadParts(s: string, seps: set<char>) returns (me: nat)
    requires DateHead(s, seps).Some?
    ensures var (c, e) := DateHead(s, seps).value;
            && 5 < me < e <= |s| && c == Captures(s[..4], s[5..me], s[me + 1..e])
            && DateText(c) && s[4] in seps && s[me] in seps
            && (e == |s| || !IsDigit(s[e]))
  {
    var (c, e) := DateHead(s, seps).value;
    me := Group12(s, 5).value;
    SliceOfRun(s, 0);
    SliceOfRun(s, 5);
    SliceOfRun(s, me + 1);
    assert s[0..4] == s[..4];
  }

  lemma HeadOfParts(s: string, c: Captures, seps: set<char>, me: nat, e: nat)
    requires 5 < me < e <= |s| && c == Captures(s[..4], s[5..me], s[me + 1..e])
    requires DateText(c) && s[4] in seps && s[me] in seps
    ensures Head(s, c, seps, s[e..])
  {
    Reassemble(s, 4, me, e);
  }

  lemma ClockFound(u: string, h: string, mi: string, sec: string, rest: string)
    requires 1 <= |h| <= 2 && AllDigits(h)
    requires 1 <= |mi| <= 2 && AllDigits(mi)
    requires 1 <= |sec| <= 2 && AllDigits(sec)
    requires u == h + ":" + mi + ":" + sec + rest
    ensures ClockAt(u)
  {
    var hEnd := |h|;
    var mEnd := hEnd + 1 + |mi|;
    Cut(u, h, ':', mi, ':', sec, rest);
    assert u[mEnd + 1] == sec[0];
    RunOfSlice(u, 0, hEnd);
    RunOfSlice(u, hEnd + 1, mEnd);
  }

  lemma ClockSound(u: string)
    requires ClockAt(u)
    ensures ClockPrefix(u)
  {
    var h, mi := ClockParts(u);
    Reassemble(u, h, mi, mi + 2);
    assert u[mi + 1..mi + 2] == [u[mi + 1]];
  }

  /** Where the matcher's clock puts its groups. */
  lemma ClockParts(u: string) returns (h: nat, mi: nat)
    requires ClockAt(u)
    ensures 1 <= h <= 2 && h + 2 <= mi <= h + 3 && mi + 2 <= |u|
    ensures AllDigits(u[..h]) && AllDigits(u[h + 1..mi]) && AllDigits(u[mi + 1..mi + 2])
    ensures u[h] == ':' && u[mi] == ':'
  {
    h := Group12(u, 0).value;
    mi := Group12(u, h + 1).value;
    SliceOfRun(u, 0);
    SliceOfRun(u, h + 1);
    assert u[0..h] == u[..h];
    assert u[mi + 1..mi + 2][0] == u[mi + 1];
  }

  lemma ClockPrefixExtends(u: string, t: string)
    requires ClockPrefix(u)
    ensures ClockPrefix(u + t)
  {
    var h, mi, sec, rest :| && 1 <= |h| <= 2 && AllDigits(h)
                            && 1 <= |mi| <= 2 && AllDigits(mi)
                            && 1 <= |sec| <= 2 && AllDigits(sec)
                            && u == h + ":" + mi + ":" + sec + rest;
    assert u + t == h + ":" + mi + ":" + sec + (rest + t);
  }

  /** The head found by the matcher, with what follows it cut in two. */
  lemma HeadSplit(s: string, seps: set<char>, c: Captures, e: nat, p: string, q: string)
    requires DateHead(s, seps) == Some((c, e)) && e <= |s| && s[e..] == p + q
    ensures Head(s, c, seps, p + q)
  {
    HeadSound(s, seps);
  }

  /** A head followed by a non-digit is where the matcher finds it. */
  lemma HeadLocated(s: string, c: Captures, seps: set<char>, rest: string)
    requires seps <= {'-', '/'}
    requires Head(s, c, seps, rest)
    requires rest == [] || !IsDigit(rest[0])
    ensures |rest| <= |s| && DateHead(s, seps) == Some((c, |s| - |rest|)) && s[|s| - |rest|..] == rest
  {
    var a, b :| a in seps && b in seps && s == c.first + [a] + c.second + [b] + c.third + rest;
    HeadFound(s, c, seps, a, b, rest);
  }

  lemma ClockFoundPrefix(u: string)
    requires ClockPrefix(u)
    ensures ClockAt(u) && |u| > 0 && IsDigit(u[0])
  {
    var h, mi, sec, rest :| && 1 <= |h| <= 2 && AllDigits(h)
                            && 1 <= |mi| <= 2 && AllDigits(mi)
                            && 1 <= |sec| <= 2 && AllDigits(sec)
                            && u == h + ":" + mi + ":" + sec + rest;
    assert u[0] == h[0];
    ClockFound(u, h, mi, sec, rest);
  }

  // ---------------------------------------------------------------------
  // The seven patterns, as decompositions
  // ---------------------------------------------------------------------

  /** Pattern 1 accepts a date with `-` separators, one `T` or whitespace
      character, a clock, and anything after it. */
  lemma IsoDateTimeSpec(s: string, c: Captures)
    ensures MatchIsoDateTime(s) == Some(c) <==>
            exists t, u :: (t == 'T' || IsSpace(t)) && Head(s, c, {'-'}, [t] + u) && ClockPrefix(u)
  {
    if MatchIsoDateTime(s) == Some(c) {
      IsoDateTimeSound(s);
    }
    if exists t, u :: (t == 'T' || IsSpace(t)) && Head(s, c, {'-'}, [t] + u) && ClockPrefix(u) {
      var t, u :| (t == 'T' || IsSpace(t)) && Head(s, c, {'-'}, [t] + u) && ClockPrefix(u);
      IsoDateTimeFound(s, c, t, u);
    }
  }

  lemma IsoDateTimeSound(s: string)
    requires MatchIsoDateTime(s).Some?
    ensures var c := MatchIsoDateTime(s).value;
            exists t, u :: (t == 'T' || IsSpace(t)) && Head(s, c, {'-'}, [t] + u) && ClockPrefix(u)
  {
    var (c, e) := DateHead(s, {'-'}).value;
    assert e < |s| && MatchIsoDateTime(s).value == c;
    HeadSplit(s, {'-'}, c, e, [s[e]], s[e + 1..]);
    ClockSound(s[e + 1..]);
    IsoWitness(s, c, s[e], s[e + 1..]);
  }

  lemma IsoWitness(s: string, c: Captures, t: char, u: string)
    requires (t == 'T' || IsSpace(t)) && Head(s, c, {'-'}, [t] + u) && ClockPrefix(u)
    ensures exists t, u :: (t == 'T' || IsSpace(t)) && Head(s, c, {'-'}, [t] + u) && ClockPrefix(u)
  {
  }

  lemma IsoDateTimeFound(s: string, c: Captures, t: char, u: string)
    requires t == 'T' || IsSpace(t)
    requires Head(s, c, {'-'}, [t] + u) && ClockPrefix(u)
    ensures MatchIsoDateTime(s) == Some(c)
  {
    var a, b :| a in {'-'} && b in {'-'} && s == c.first + [a] + c.second + [b] + c.third + ([t] + u);
    IsoFoundAt(s, c, a, b, t, u);
  }

  lemma IsoFoundAt(s: string, c: Captures, a: char, b: char, t: char, u: string)
    requires t == 'T' || IsSpace(t)
    requires a == '-' && b == '-' && DateText(c)
    requires s == c.first + [a] + c.second + [b] + c.third + ([t] + u) && ClockPrefix(u)
    ensures MatchIsoDateTime(s) == Some(c)
  {
    var me, de := HeadCutOf(s, c, {'-'}, a, b, [t] + u);
    assert de < |s| && s[de] == t && s[de + 1..] == u;
    IsoAt(s, c, me, de);
  }

  /** Pattern 1 at fixed positions. */
  lemma IsoAt(s: string, c: Captures, me: nat, de: nat)
    requires HeadCut(s, c, {'-'}, me, de) && de < |s|
    requires (s[de] == 'T' || IsSpace(s[de])) && ClockPrefix(s[de + 1..])
    ensures MatchIsoDateTime(s) == Some(c)
  {
    ClockFoundPrefix(s[de + 1..]);
    HeadOfCut(s, c, {'-'}, me, de);
    IsoFromParts(s, c, de);
  }

  lemma IsoFromParts(s: string, c: Captures, e: nat)
    requires DateHead(s, {'-'}) == Some((c, e)) && e < |s|
    requires (s[e] == 'T' || IsSpace(s[e])) && ClockAt(s[e + 1..])
    ensures MatchIsoDateTime(s) == Some(c)
  {
  }

  /** Patterns 2, 3 and 4 accept a date, a run of whitespace, a clock, and
      anything after it. */
  lemma SpacedDateTimeSpec(s: string, seps: set<char>, c: Captures)
    requires seps <= {'-', '/'}
    ensures MatchSpacedDateTime(s, seps) == Some(c) <==>
            exists w, u :: |w| >= 1 && AllSpace(w) && Head(s, c, seps, w + u) && ClockPrefix(u)
  {
    if MatchSpacedDateTime(s, seps) == Some(c) {
      SpacedDateTimeSound(s, seps, c);
    }
    if exists w, u :: |w| >= 1 && AllSpace(w) && Head(s, c, seps, w + u) && ClockPrefix(u) {
      var w, u :| |w| >= 1 && AllSpace(w) && Head(s, c, seps, w + u) && ClockPrefix(u);
      SpacedDateTimeFound(s, seps, c, w, u);
    }
  }

  lemma SpacedDateTimeSound(s: string, seps: set<char>, c: Captures)
    requires MatchSpacedDateTime(s, seps) == Some(c)
    ensures exists w, u :: |w| >= 1 && AllSpace(w) && Head(s, c, seps, w + u) && ClockPrefix(u)
  {
    var e, w, u := SpacedPieces(s, seps, c);
    SpacedSound(s, seps, c, e, w, u);
  }

  /** The pieces of a pattern 2–4 match: the head ending at `e`, the
      whitespace run `w` and the text `u` the clock starts. */
  lemma SpacedPieces(s: string, seps: set<char>, c: Captures) returns (e: nat, w: string, u: string)
    requires MatchSpacedDateTime(s, seps) == Some(c)
    ensures DateHead(s, seps) == Some((c, e)) && e <= |s| && s[e..] == w + u
    ensures |w| >= 1 && AllSpace(w) && ClockAt(u)
  {
    var (c', e') := DateHead(s, seps).value;
    e := e';
    SpacedParts(s, seps, c', e);
    w, u := SplitRun(s, e);
  }

  /** The whitespace run at `i` and what follows it. */
  lemma SplitRun(s: string, i: nat) returns (w: string, u: string)
    requires i <= |s|
    ensures |w| == SpaceRun(s, i) && u == s[i + SpaceRun(s, i)..]
    ensures AllSpace(w) && s[i..] == w + u
  {
    var n := SpaceRun(s, i);
    w, u := s[i..i + n], s[i + n..];
    assert s[i..] == w + u;
    SpaceRunIsSpace(s, i);
  }

  lemma SpacedSound(s: string, seps: set<char>, c: Captures, e: nat, w: string, u: string)
    requires DateHead(s, seps) == Some((c, e)) && e <= |s| && s[e..] == w + u
    requires |w| >= 1 && AllSpace(w) && ClockAt(u)
    ensures exists w, u :: |w| >= 1 && AllSpace(w) && Head(s, c, seps, w + u) && ClockPrefix(u)
  {
    HeadSplit(s, seps, c, e, w, u);
    ClockSound(u);
    SpacedWitness(s, seps, c, w, u);
  }

  lemma SpacedParts(s: string, seps: set<char>, c: Captures, e: nat)
    requires DateHead(s, seps) == Some((c, e)) && MatchSpacedDateTime(s, seps).Some?
    ensures e <= |s| && MatchSpacedDateTime(s, seps).value == c
    ensures SpaceRun(s, e) >= 1 && ClockAt(s[e + SpaceRun(s, e)..])
  {
    var n := SpaceRun(s, e);
    var u := s[e + n..];
    assert n >= 1 && ClockAt(u);
  }

  lemma SpaceRunIsSpace(s: string, i: nat)
    requires i <= |s|
    ensures AllSpace(s[i..i + SpaceRun(s, i)])
  {
    var w := s[i..i + SpaceRun(s, i)];
    SpaceRunSpec(s, i);
    forall k | 0 <= k < |w| ensures IsSpace(w[k]) {
      assert w[k] == s[i + k];
    }
  }

  lemma SpacedWitness(s: string, seps: set<char>, c: Captures, w: string, u: string)
    requires |w| >= 1 && AllSpace(w) && Head(s, c, seps, w + u) && ClockPrefix(u)
    ensures exists w, u :: |w| >= 1 && AllSpace(w) && Head(s, c, seps, w + u) && ClockPrefix(u)
  {
  }

  lemma SpacedDateTimeFound(s: string, seps: set<char>, c: Captures, w: string, u: string)
    requires seps <= {'-', '/'}
    requires |w| >= 1 && AllSpace(w)
    requires Head(s, c, seps, w + u) && ClockPrefix(u)
    ensures MatchSpacedDateTime(s, seps) == Some(c)
  {
    var a, b :| a in seps && b in seps && s == c.first + [a] + c.second + [b] + c.third + (w + u);
    SpacedFoundAt(s, seps, c, a, b, w, u);
  }

  lemma SpacedFoundAt(s: string, seps: set<char>, c: Captures, a: char, b: char, w: string, u: string)
    requires seps <= {'-', '/'} && a in seps && b in seps && DateText(c)
    requires |w| >= 1 && AllSpace(w)
    requires s == c.first + [a] + c.second + [b] + c.third + (w + u) && ClockPrefix(u)
    ensures MatchSpacedDateTime(s, seps) == Some(c)
  {
    var me, de := HeadCutOf(s, c, seps, a, b, w + u);
    assert s[de..de + |w|] == w && s[de + |w|..] == u;
    SpacedAt(s, seps, c, me, de, w);
  }

  /** Patterns 2-4 at fixed positions, with the whitespace run `w`. */
  lemma SpacedAt(s: string, seps: set<char>, c: Captures, me: nat, de: nat, w: string)
    requires seps <= {'-', '/'} && HeadCut(s, c, seps, me, de)
    requires |w| >= 1 && AllSpace(w) && de + |w| <= |s| && s[de..de + |w|] == w
    requires ClockPrefix(s[de + |w|..])
    ensures MatchSpacedDateTime(s, seps) == Some(c)
  {
    ClockFoundPrefix(s[de + |w|..]);
    assert s[de] == w[0];
    HeadOfCut(s, c, seps, me, de);
    SpaceRunOfSlice(s, de, de + |w|);
    SpacedFromParts(s, seps, c, de, |w|);
  }

  /** A whitespace run read off a slice. */
  lemma SpaceRunOfSlice(s: string, i: nat, j: nat)
    requires i <= j <= |s| && AllSpace(s[i..j])
    requires j == |s| || !IsSpace(s[j])
    ensures SpaceRun(s, i) == j - i
  {
    forall k | i <= k < j
      ensures IsSpace(s[k])
    {
      assert s[k] == s[i..j][k - i];
    }
    SpaceRunAt(s, i, j - i);
  }

  lemma SpacedFromParts(s: string, seps: set<char>, c: Captures, e: nat, n: nat)
    requires DateHead(s, seps) == Some((c, e)) && e <= |s|
    requires SpaceRun(s, e) == n && n >= 1 && ClockAt(s[e + n..])
    ensures MatchSpacedDateTime(s, seps) == Some(c)
  {
  }

  /** Pattern 5 accepts exactly a date with `-` or `/` separators and
      nothing after it. */
  lemma DateOnlySpec(s: string, c: Captures)
    ensures MatchDateOnly(s) == Some(c) <==> Head(s, c, {'-', '/'}, [])
  {
    if MatchDateOnly(s) == Some(c) {
      DateOnlySound(s, c);
    }
    if Head(s, c, {'-', '/'}, []) {
      DateOnlyFound(s, c);
    }
  }

  lemma DateOnlySound(s: string, c: Captures)
    requires MatchDateOnly(s) == Some(c)
    ensures Head(s, c, {'-', '/'}, [])
  {
    HeadSound(s, {'-', '/'});
    assert s[|s|..] == [];
  }

  lemma DateOnlyFound(s: string, c: Captures)
    requires Head(s, c, {'-', '/'}, [])
    ensures MatchDateOnly(s) == Some(c)
  {
    var a, b :| a in {'-', '/'} && b in {'-', '/'} && s == c.first + [a] + c.second + [b] + c.third + [];
    HeadFound(s, c, {'-', '/'}, a, b, []);
  }

  /** Pattern 6 accepts a year, `年`, a month, `月`, a day, `日`, and
      anything after it. */
  lemma CjkDateSpec(s: string, c: Captures)
    ensures MatchCjkDate(s) == Some(c) <==>
            DateText(c) && exists u :: s == c.first + "年" + c.second + "月" + c.third + "日" + u
  {
    if MatchCjkDate(s) == Some(c) {
      CjkDateSound(s);
    }
    if DateText(c) && exists u :: s == c.first + "年" + c.second + "月" + c.third + "日" + u {
      var u :| s == c.first + "年" + c.second + "月" + c.third + "日" + u;
      CjkDateFound(s, c, u);
    }
  }

  lemma CjkDateSound(s: string)
    requires MatchCjkDate(s).Some?
    ensures var c := MatchCjkDate(s).value;
            DateText(c) && s == c.first + "年" + c.second + "月" + c.third + "日" + s[|c.first| + |c.second| + |c.third| + 3..]
  {
    var me, de := CjkParts(s);
    Reassemble(s, 4, me, de);
    assert s[de..] == "日" + s[de + 1..];
  }

  /** Where the matcher's pattern 6 puts its groups. */
  lemma CjkParts(s: string) returns (me: nat, de: nat)
    requires MatchCjkDate(s).Some?
    ensures var c := MatchCjkDate(s).value;
            && 5 < me < de < |s| && c == Captures(s[..4], s[5..me], s[me + 1..de]) && DateText(c)
            && s[4] == '年' && s[me] == '月' && s[de] == '日'
  {
    me := Group12(s, 5).value;
    de := Group12(s, me + 1).value;
    SliceOfRun(s, 0);
    SliceOfRun(s, 5);
    SliceOfRun(s, me + 1);
    assert s[0..4] == s[..4];
  }

  lemma CjkDateFound(s: string, c: Captures, u: string)
    requires DateText(c)
    requires s == c.first + "年" + c.second + "月" + c.third + "日" + u
    ensures MatchCjkDate(s) == Some(c)
  {
    var me := 5 + |c.second|;
    var de := me + 1 + |c.third|;
    assert s == c.first + ['年'] + c.second + ['月'] + c.third + ("日" + u);
    Cut(s, c.first, '年', c.second, '月', c.third, "日" + u);
    assert s[de] == '日';
    RunOfSlice(s, 0, 4);
    RunOfSlice(s, 5, me);
    RunOfSlice(s, me + 1, de);
    CjkAt(s, c, me, de);
  }

  /** The matcher's view of pattern 6: each group's digit run and the
      three marks after them. */
  lemma CjkAt(s: string, c: Captures, me: nat, de: nat)
    requires DateText(c)
    requires |s| > 4 && DigitRun(s, 0) == 4 && s[4] == '年' && s[..4] == c.first
    requires me == 5 + |c.second| && me < |s| && DigitRun(s, 5) == |c.second| && s[5..me] == c.second && s[me] == '月'
    requires de == me + 1 + |c.third| && de < |s| && DigitRun(s, me + 1) == |c.third| && s[me + 1..de] == c.third
    requires s[de] == '日'
    ensures MatchCjkDate(s) == Some(c)
  {
  }

  /** Pattern 7 accepts exactly month `/` day `/` four-digit year. */
  lemma UsDateSpec(s: string, c: Captures)
    ensures MatchUsDate(s) == Some(c) <==> UsText(c) && s == c.first + "/" + c.second + "/" + c.third
  {
    if MatchUsDate(s) == Some(c) {
      UsDateSound(s);
    }
    if UsText(c) && s == c.first + "/" + c.second + "/" + c.third {
      UsDateFound(s, c);
    }
  }

  lemma UsDateSound(s: string)
    requires MatchUsDate(s).Some?
    ensures var c := MatchUsDate(s).value;
            UsText(c) && s == c.first + "/" + c.second + "/" + c.third
  {
    var a, b := UsParts(s);
    Reassemble(s, a, b, |s|);
    assert s[b + 1..|s|] == s[b + 1..];
  }

  /** Where the matcher's pattern 7 puts its groups. */
  lemma UsParts(s: string) returns (a: nat, b: nat)
    requires MatchUsDate(s).Some?
    ensures var c := MatchUsDate(s).value;
            && 0 < a < b < |s| && c == Captures(s[..a], s[a + 1..b], s[b + 1..]) && UsText(c)
            && s[a] == '/' && s[b] == '/'
  {
    a := Group12(s, 0).value;
    b := Group12(s, a + 1).value;
    SliceOfRun(s, 0);
    SliceOfRun(s, a + 1);
    SliceOfRun(s, b + 1);
    assert s[0..a] == s[..a];
    assert s[b + 1..b + 1 + 4] == s[b + 1..];
  }

  lemma UsDateFound(s: string, c: Captures)
    requires UsText(c) && s == c.first + "/" + c.second + "/" + c.third
    ensures MatchUsDate(s) == Some(c)
  {
    var a := |c.first|;
    var b := a + 1 + |c.second|;
    assert s[..a] == c.first;
    assert s[a] == '/';
    assert s[a + 1..b] == c.second;
    assert s[b] == '/';
    assert s[b + 1..] == c.third;
    DigitRunAt(s, 0, a);
    DigitRunAt(s, a + 1, |c.second|);
    DigitRunAt(s, b + 1, 4);
  }
}
