/** The JavaScript string primitives the client code leans on, written out
    from their ECMAScript definitions: `trim`, the `\s` class, `includes`,
    `indexOf`, `replace` with a string pattern, `parseInt`, `String(n)` for
    integers and `length` in UTF-16 code units. Strings are sequences of
    Unicode scalar values. */
module JsText {
  import opened Optional

  // ---------------------------------------------------------------------
  // Whitespace, trimming
  // ---------------------------------------------------------------------

  /** ECMAScript WhiteSpace or LineTerminator: the characters `trim` strips
      and the regular-expression class `\s` matches (Unicode category Zs as
      of Unicode 15, plus TAB, VT, FF, ZWNBSP, LF, CR, LS and PS). */
  predicate IsSpace(c: char) {
    || c == '\t' || c == '\n' || c == '\U{000B}' || c == '\U{000C}' || c == '\r'
    || c == ' ' || c == '\U{00A0}' || c == '\U{1680}'
    || ('\U{2000}' <= c <= '\U{200A}')
    || c == '\U{2028}' || c == '\U{2029}' || c == '\U{202F}' || c == '\U{205F}'
    || c == '\U{3000}' || c == '\U{FEFF}'
  }

  predicate AllSpace(s: string) {
    forall i :: 0 <= i < |s| ==> IsSpace(s[i])
  }

  /** Number of leading whitespace characters of `s`. */
  function LeadingSpace(s: string): (n: nat)
    ensures n <= |s|
    ensures AllSpace(s[..n])
    ensures n == |s| || !IsSpace(s[n])
  {
    if |s| == 0 || !IsSpace(s[0]) then 0
    else
      var n := 1 + LeadingSpace(s[1..]);
      assert s[..n] == [s[0]] + s[1..][..n - 1];
      n
  }

  /** Number of trailing whitespace characters of `s`. */
  function TrailingSpace(s: string): (n: nat)
    ensures n <= |s|
    ensures AllSpace(s[|s| - n..])
    ensures n == |s| || !IsSpace(s[|s| - n - 1])
  {
    if |s| == 0 || !IsSpace(s[|s| - 1]) then 0
    else
      var n := 1 + TrailingSpace(s[..|s| - 1]);
      assert s[|s| - n..] == s[..|s| - 1][|s| - n..] + [s[|s| - 1]];
      n
  }

  /** `String.prototype.trimStart`. */
  function TrimStart(s: string): (r: string)
    ensures r == s[LeadingSpace(s)..]
    ensures r == [] || !IsSpace(r[0])
  {
    s[LeadingSpace(s)..]
  }

  /** `String.prototype.trim`: the infix left once the maximal whitespace
      prefix and suffix are cut off. */
  function Trim(s: string): (r: string)
    ensures exists i, j :: 0 <= i <= j <= |s| && r == s[i..j] && AllSpace(s[..i]) && AllSpace(s[j..])
    ensures r == [] || (!IsSpace(r[0]) && !IsSpace(r[|r| - 1]))
    ensures r == [] <==> AllSpace(s)
  {
    var i := LeadingSpace(s);
    var u := s[i..];
    var k := TrailingSpace(u);
    assert s[i..][..|u| - k] == s[i..i + |u| - k];
    assert s[i + |u| - k..] == u[|u| - k..];
    TrimEmptyOnlyWhenBlank(s, i, u, k);
    u[..|u| - k]
  }

  lemma TrimEmptyOnlyWhenBlank(s: string, i: nat, u: string, k: nat)
    requires i <= |s| && u == s[i..] && k <= |u|
    requires AllSpace(s[..i]) && AllSpace(u[|u| - k..])
    ensures u[..|u| - k] == [] ==> AllSpace(s)
  {
  }

  lemma {:induction false} TrimIdempotent(s: string)
    ensures Trim(Trim(s)) == Trim(s)
  {
    var t := Trim(s);
    assert LeadingSpace(t) == 0;
    assert t[0..] == t;
    assert TrailingSpace(t) == 0;
    assert t[..|t| - 0] == t;
  }

  /** A string that neither starts nor ends with whitespace is its own trim. */
  lemma TrimOfUnpadded(s: string)
    requires |s| > 0 && !IsSpace(s[0]) && !IsSpace(s[|s| - 1])
    ensures Trim(s) == s && !AllSpace(s)
  {
    assert LeadingSpace(s) == 0;
    assert s[0..] == s;
    assert TrailingSpace(s) == 0;
    assert s[..|s| - 0] == s;
  }

  // ---------------------------------------------------------------------
  // Substring search and replacement
  // ---------------------------------------------------------------------

  /** `p` occurs in `s` starting at index `i`. */
  predicate OccursAt(s: string, p: string, i: nat) {
    i + |p| <= |s| && s[i..i + |p|] == p
  }

  /** `s.indexOf(p, from)`: the leftmost occurrence at or after `from`. */
  function IndexOfFrom(s: string, p: string, from: nat): (r: Option<nat>)
    decreases |s| - from
    ensures r.Some? ==> from <= r.value && OccursAt(s, p, r.value)
    ensures r.Some? ==> forall j :: from <= j < r.value ==> !OccursAt(s, p, j)
    ensures r.None? ==> forall j :: from <= j ==> !OccursAt(s, p, j)
  {
    if from + |p| > |s| then None
    else if s[from..from + |p|] == p then Some(from)
    else IndexOfFrom(s, p, from + 1)
  }

  function IndexOf(s: string, p: string): (r: Option<nat>)
    ensures r.Some? ==> OccursAt(s, p, r.value) && forall j :: 0 <= j < r.value ==> !OccursAt(s, p, j)
    ensures r.None? <==> forall j :: 0 <= j ==> !OccursAt(s, p, j)
  {
    IndexOfFrom(s, p, 0)
  }

  /** `s.includes(p)`. */
  predicate Includes(s: string, p: string) {
    IndexOf(s, p).Some?
  }

  lemma IncludesMeansInfix(s: string, p: string)
    ensures Includes(s, p) <==> exists i :: 0 <= i && OccursAt(s, p, i)
  {
  }

  /** GetSubstitution (ECMAScript section 22.1.3.19.1) for a string pattern:
      there are no capture groups, so only `$$`, `$&`, `` $` `` and `$'` are
      special and every other `$` stands for itself. */
  function Substitution(matched: string, str: string, position: nat, replacement: string): string
    requires position + |matched| <= |str|
    decreases |replacement|
  {
    if |replacement| == 0 then ""
    else if replacement[0] == '$' && |replacement| >= 2 then
      var rest := Substitution(matched, str, position, replacement[2..]);
      match replacement[1]
      case '$' => "$" + rest
      case '&' => matched + rest
      case '`' => str[..position] + rest
      case '\'' => str[position + |matched|..] + rest
      case _ => "$" + Substitution(matched, str, position, replacement[1..])
    else [replacement[0]] + Substitution(matched, str, position, replacement[1..])
  }

  lemma {:induction false} SubstitutionWithoutDollar(matched: string, str: string, position: nat, replacement: string)
    requires position + |matched| <= |str|
    requires '$' !in replacement
    ensures Substitution(matched, str, position, replacement) == replacement
    decreases |replacement|
  {
    if |replacement| > 0 {
      SubstitutionWithoutDollar(matched, str, position, replacement[1..]);
      assert replacement == [replacement[0]] + replacement[1..];
    }
  }

  /** `s.replace(p, replacement)` with a string `p`: only the leftmost
      occurrence is replaced. */
  function ReplaceFirst(s: string, p: string, replacement: string): (r: string)
  {
    match IndexOf(s, p)
    case None => s
    case Some(i) => s[..i] + Substitution(p, s, i, replacement) + s[i + |p|..]
  }

  /** Replacing a pattern that does not occur leaves the text unchanged;
      when it occurs, the text before its first occurrence is kept, the
      occurrence gives way to the replacement (verbatim when it holds no
      `$`), and the text after it is kept. */
  lemma ReplaceFirstSpec(s: string, p: string, replacement: string)
    ensures (forall j :: 0 <= j ==> !OccursAt(s, p, j)) ==> ReplaceFirst(s, p, replacement) == s
    ensures forall i :: 0 <= i && OccursAt(s, p, i) && (forall j :: 0 <= j < i ==> !OccursAt(s, p, j)) && '$' !in replacement
                   ==> ReplaceFirst(s, p, replacement) == s[..i] + replacement + s[i + |p|..]
  {
    forall i | 0 <= i && OccursAt(s, p, i) && (forall j :: 0 <= j < i ==> !OccursAt(s, p, j)) && '$' !in replacement
      ensures ReplaceFirst(s, p, replacement) == s[..i] + replacement + s[i + |p|..]
    {
      var k := IndexOf(s, p);
      assert k.Some?;
      assert k.value == i;
      SubstitutionWithoutDollar(p, s, i, replacement);
    }
  }

  // ---------------------------------------------------------------------
  // Digits, parseInt and String(n)
  // ---------------------------------------------------------------------

  predicate IsDigit(c: char) {
    '0' <= c <= '9'
  }

  predicate AllDigits(s: string) {
    forall i :: 0 <= i < |s| ==> IsDigit(s[i])
  }

  /** The value of `c` as a digit of radix up to 36, or 36 when it is no
      digit at all. */
  function DigitValue(c: char): (v: nat)
    ensures v <= 36
    ensures IsDigit(c) <==> v < 10
  {
    if '0' <= c <= '9' then c as int - '0' as int
    else if 'a' <= c <= 'z' then c as int - 'a' as int + 10
    else if 'A' <= c <= 'Z' then c as int - 'A' as int + 10
    else 36
  }

  predicate IsRadixDigit(c: char, radix: nat) {
    DigitValue(c) < radix
  }

  /** Value of a string of radix digits, most significant first. */
  function RadixValue(ds: string, radix: nat): nat
  {
    if |ds| == 0 then 0
    else RadixValue(ds[..|ds| - 1], radix) * radix + DigitValue(ds[|ds| - 1])
  }

  /** Value of a string of decimal digits (`parseInt(ds, 10)` on a `\d+`
      capture). */
  function DigitsValue(ds: string): nat {
    RadixValue(ds, 10)
  }

  /** Number of leading radix digits of `s`. */
  function RadixRun(s: string, radix: nat): (n: nat)
    ensures n <= |s|
    ensures forall k :: 0 <= k < n ==> IsRadixDigit(s[k], radix)
    ensures n == |s| || !IsRadixDigit(s[n], radix)
  {
    if |s| == 0 || !IsRadixDigit(s[0], radix) then 0
    else 1 + RadixRun(s[1..], radix)
  }

  /** `parseInt(s)` with no radix argument (ECMAScript section 19.2.5):
      leading whitespace is skipped, one sign is read, a `0x`/`0X` prefix
      selects radix 16, and the longest run of radix digits is converted;
      `None` is `NaN`. Numbers beyond 2^53 lose precision in the engine
      and are exact here. */
  function ParseInt(s: string): Option<int>
  {
    var t := TrimStart(s);
    var negative := |t| > 0 && t[0] == '-';
    var u := if |t| > 0 && (t[0] == '-' || t[0] == '+') then t[1..] else t;
    var hex := |u| >= 2 && u[0] == '0' && (u[1] == 'x' || u[1] == 'X');
    var radix := if hex then 16 else 10;
    var body := if hex then u[2..] else u;
    var n := RadixRun(body, radix);
    if n == 0 then None
    else
      var magnitude: int := RadixValue(body[..n], radix);
      Some(if negative then -magnitude else magnitude)
  }

  function DecimalDigit(d: nat): (c: char)
    requires d < 10
    ensures IsDigit(c) && DigitValue(c) == d
  {
    ['0', '1', '2', '3', '4', '5', '6', '7', '8', '9'][d]
  }

  /** Decimal rendering of a natural number, without leading zeros. */
  function NatToDecimal(n: nat): (s: string)
    ensures |s| >= 1 && AllDigits(s)
    ensures n > 0 ==> s[0] != '0'
  {
    if n < 10 then [DecimalDigit(n)]
    else NatToDecimal(n / 10) + [DecimalDigit(n % 10)]
  }

  /** `String(n)` for an integer-valued number. */
  function IntToDecimal(n: int): string {
    if n < 0 then "-" + NatToDecimal(-n) else NatToDecimal(n)
  }

  /** `String(n)` is digits, after a minus sign exactly for a negative `n`. */
  lemma IntToDecimalChars(n: int)
    ensures |IntToDecimal(n)| >= 1
    ensures forall i :: 0 <= i < |IntToDecimal(n)| ==>
              IsDigit(IntToDecimal(n)[i]) || (i == 0 && n < 0 && IntToDecimal(n)[i] == '-')
    ensures IntToDecimal(n)[0] == '-' <==> n < 0
  {
  }

  lemma {:induction false} NatToDecimalValue(n: nat)
    ensures DigitsValue(NatToDecimal(n)) == n
  {
    if n >= 10 {
      NatToDecimalValue(n / 10);
      var s := NatToDecimal(n);
      assert s[..|s| - 1] == NatToDecimal(n / 10);
      assert DigitValue(s[|s| - 1]) == n % 10;
      assert DigitsValue(s) == DigitsValue(NatToDecimal(n / 10)) * 10 + n % 10;
    } else {
      var s := NatToDecimal(n);
      assert s == [DecimalDigit(n)];
      assert s[..0] == [];
      assert DigitsValue(s) == RadixValue(s[..0], 10) * 10 + DigitValue(s[0]);
    }
  }

  /** A run of digits has that many leading radix-10 digits. */
  lemma {:induction false} RadixRunOfDigits(s: string, rest: string)
    requires AllDigits(s)
    requires rest == [] || !IsDigit(rest[0])
    ensures RadixRun(s + rest, 10) == |s|
    decreases |s|
  {
    if |s| > 0 {
      assert (s + rest)[1..] == s[1..] + rest;
      RadixRunOfDigits(s[1..], rest);
    } else {
      assert s + rest == rest;
    }
  }

  /** `parseInt(String(n)) == n` for every integer. */
  lemma ParseIntOfDecimal(n: int)
    ensures ParseInt(IntToDecimal(n)) == Some(n)
  {
    if n < 0 {
      ParseIntOfNegative(n);
    } else {
      NatToDecimalValue(n);
      ParseIntOfDigits(NatToDecimal(n));
    }
  }

  /** The negative case: `String(n)` is `-` followed by the digits of
      `-n`. */
  lemma ParseIntOfNegative(n: int)
    requires n < 0
    ensures ParseInt(IntToDecimal(n)) == Some(n)
  {
    var ds := NatToDecimal(-n);
    NatToDecimalValue(-n);
    assert DigitsValue(ds) == -n;
    assert IntToDecimal(n) == "-" + ds;
    ParseIntOfNegated(IntToDecimal(n), ds);
    assert ParseInt(IntToDecimal(n)) == Some(-(DigitsValue(ds) as int));
  }

  /** `parseInt` of a minus sign followed by decimal digits. */
  lemma ParseIntOfNegated(s: string, ds: string)
    requires |ds| >= 1 && AllDigits(ds) && s == "-" + ds
    ensures ParseInt(s) == Some(-(DigitsValue(ds) as int))
  {
    assert !IsSpace(s[0]);
    assert LeadingSpace(s) == 0;
    assert TrimStart(s) == s;
    assert s[1..] == ds;
    assert |ds| >= 2 ==> IsDigit(ds[1]);
    RadixRunOfDigits(ds, []);
    assert ds + [] == ds;
    assert ds[..|ds|] == ds;
  }

  /** `parseInt` of a non-empty string of decimal digits is its decimal
      value: no whitespace, sign or `0x` prefix can be read from it. */
  lemma ParseIntOfDigits(s: string)
    requires |s| >= 1 && AllDigits(s)
    ensures ParseInt(s) == Some(DigitsValue(s))
  {
    assert !IsSpace(s[0]);
    assert LeadingSpace(s) == 0;
    assert TrimStart(s) == s;
    assert |s| >= 2 ==> IsDigit(s[1]);
    RadixRunOfDigits(s, []);
    assert s + [] == s;
    assert s[..|s|] == s;
  }

  /** Leading zeros do not change the value of a digit string. */
  lemma {:induction false} LeadingZeroValue(s: string)
    ensures DigitsValue(['0'] + s) == DigitsValue(s)
    decreases |s|
  {
    if |s| > 0 {
      LeadingZeroValue(s[..|s| - 1]);
      assert (['0'] + s)[..|s|] == ['0'] + s[..|s| - 1];
    } else {
      assert (['0'] + s)[..0] == [];
    }
  }

  /** When the first character of `p` does not appear in `pre`, the first
      occurrence of `p` in `pre + p + post` is the one right after `pre`. */
  lemma ReplaceFirstAfter(pre: string, p: string, post: string, replacement: string)
    requires |p| > 0 && p[0] !in pre && '$' !in replacement
    ensures ReplaceFirst(pre + p + post, p, replacement) == pre + replacement + post
  {
    var s := pre + p + post;
    var i := |pre|;
    assert s[i..i + |p|] == p;
    forall j | 0 <= j < i
      ensures !OccursAt(s, p, j)
    {
      assert s[j] == pre[j];
    }
    ReplaceFirstSpec(s, p, replacement);
    assert s[..i] == pre;
    assert s[i + |p|..] == post;
  }

  // ---------------------------------------------------------------------
  // Lengths
  // ---------------------------------------------------------------------

  /** `s.length`: characters above U+FFFF take two UTF-16 code units. */
  function Utf16Length(s: string): (n: nat)
    ensures |s| <= n <= 2 * |s|
  {
    if |s| == 0 then 0
    else (if s[0] as int > 0xFFFF then 2 else 1) + Utf16Length(s[1..])
  }

  /** `s.padStart(width, fill)` with a one-character fill. */
  function PadStart(s: string, width: nat, fill: char): (r: string)
    ensures |r| == if |s| >= width then |s| else width
    ensures r[|r| - |s|..] == s
    ensures forall i :: 0 <= i < |r| - |s| ==> r[i] == fill
  {
    if |s| >= width then s else seq(width - |s|, _ => fill) + s
  }
}
