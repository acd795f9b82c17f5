/** String handling shared by the server and the browser code: JavaScript's notion of white
    space, `trim`, `split` on one character, ASCII case mapping, substring search, decimal
    rendering of integers, and the two regular expressions the forms test. */
module Text {

  /** The white space and line terminators of ECMAScript outside the range U+2000..U+200A. */
  const SpaceChars: set<char> := {
    ' ', '\t', '\n', '\r', '\U{000B}', '\U{000C}', '\U{00A0}', '\U{1680}',
    '\U{2028}', '\U{2029}', '\U{202F}', '\U{205F}', '\U{3000}', '\U{FEFF}'
  }

  /** The characters `String.prototype.trim` removes and the regex class `\s` matches:
      ECMAScript white space and line terminators. */
  predicate IsSpace(c: char) {
    c in SpaceChars || ('\U{2000}' <= c && c <= '\U{200A}')
  }

  /** Every character of `s` is white space; the empty string is blank. */
  predicate IsBlank(s: string) {
    forall i :: 0 <= i < |s| ==> IsSpace(s[i])
  }

  /** The first position at or after `i` that holds no white space, or `|s|`. */
  function SkipSpaces(s: string, i: nat): (j: nat)
    requires i <= |s|
    ensures i <= j <= |s|
    ensures forall p :: i <= p < j ==> IsSpace(s[p])
    ensures j == |s| || !IsSpace(s[j])
    decreases |s| - i
  {
    if i < |s| && IsSpace(s[i]) then SkipSpaces(s, i + 1) else i
  }

  /** The end of `s[lo..hi]` once its trailing white space is dropped. */
  function SkipSpacesBack(s: string, lo: nat, hi: nat): (j: nat)
    requires lo <= hi <= |s|
    ensures lo <= j <= hi
    ensures forall p :: j <= p < hi ==> IsSpace(s[p])
    ensures j == lo || !IsSpace(s[j - 1])
    decreases hi
  {
    if lo < hi && IsSpace(s[hi - 1]) then SkipSpacesBack(s, lo, hi - 1) else hi
  }

  /** JavaScript's `s.trim()`: the text between the leading and the trailing white space. */
  function Trim(s: string): (r: string)
    ensures |r| <= |s|
    ensures r == [] || (!IsSpace(r[0]) && !IsSpace(r[|r| - 1]))
    ensures r == [] <==> IsBlank(s)
  {
    var i := SkipSpaces(s, 0);
    var j := SkipSpacesBack(s, i, |s|);
    assert j > i ==> s[i..j][0] == s[i] && s[i..j][j - i - 1] == s[j - 1];
    s[i..j]
  }

  /** Trimming is idempotent: a trimmed string has nothing left to trim. */
  lemma {:induction false} TrimIdempotent(s: string)
    ensures Trim(Trim(s)) == Trim(s)
  {
    var r := Trim(s);
    if r != [] {
      assert SkipSpaces(r, 0) == 0;
      assert SkipSpacesBack(r, 0, |r|) == |r|;
      assert r[0..|r|] == r;
    }
  }

  /** Trimming removes a blank prefix and a blank suffix and keeps what lies between. */
  lemma TrimIsInfix(s: string)
    ensures var k := SkipSpaces(s, 0);
      && k + |Trim(s)| <= |s| && Trim(s) == s[k..k + |Trim(s)|]
      && IsBlank(s[..k]) && IsBlank(s[k + |Trim(s)|..])
  {
    var i := SkipSpaces(s, 0);
    var j := SkipSpacesBack(s, i, |s|);
    assert IsBlank(s[..i]) by {
      forall p | 0 <= p < i ensures IsSpace(s[..i][p]) { assert s[..i][p] == s[p]; }
    }
    assert IsBlank(s[j..]) by {
      forall p | 0 <= p < |s| - j ensures IsSpace(s[j..][p]) { assert s[j..][p] == s[j + p]; }
    }
  }

  /** Index of the first `c` in `s`, or `|s|` when `s` has none. */
  function IndexOf(s: string, c: char): (i: nat)
    ensures i <= |s|
    ensures i < |s| ==> s[i] == c
    ensures c !in s[..i]
  {
    if s == [] then 0 else if s[0] == c then 0 else 1 + IndexOf(s[1..], c)
  }

  /** The parts of `parts` with `sep` between consecutive ones (`Array.prototype.join`). */
  function Join(parts: seq<string>, sep: char): string {
    if |parts| == 0 then "" else if |parts| == 1 then parts[0]
    else parts[0] + [sep] + Join(parts[1..], sep)
  }

  /** JavaScript's `s.split(sep)` for a one-character separator: the maximal pieces
      between separators, empty pieces included. */
  function Split(s: string, sep: char): (parts: seq<string>)
    ensures |parts| >= 1
    ensures forall k :: 0 <= k < |parts| ==> sep !in parts[k]
    ensures Join(parts, sep) == s
    decreases |s|
  {
    var i := IndexOf(s, sep);
    if i == |s| then
      assert s[..i] == s;
      [s]
    else
      var rest := Split(s[i + 1..], sep);
      var parts := [s[..i]] + rest;
      assert parts[1..] == rest;
      assert s == s[..i] + [sep] + s[i + 1..];
      parts
  }

  /** The first part is the text before the first separator. */
  lemma SplitFirst(s: string, sep: char)
    ensures Split(s, sep)[0] == s[..IndexOf(s, sep)]
  {
  }

  /** There is a second part exactly when the text has a separator, and it is the text
      after the first separator up to the next one. */
  lemma SplitSecond(s: string, sep: char)
    ensures var i := IndexOf(s, sep);
      (|Split(s, sep)| > 1 <==> i < |s|) &&
      (i < |s| ==> Split(s, sep)[1] == s[i + 1..][..IndexOf(s[i + 1..], sep)])
  {
    var i := IndexOf(s, sep);
    if i < |s| {
      SplitFirst(s[i + 1..], sep);
    }
  }

  lemma {:induction false} IndexOfAfterPrefix(a: string, c: char, b: string)
    requires c !in a
    ensures IndexOf(a + [c] + b, c) == |a|
  {
    if a != [] {
      assert (a + [c] + b)[1..] == a[1..] + [c] + b;
      IndexOfAfterPrefix(a[1..], c, b);
    }
  }

  /** Splitting undoes joining when no part holds the separator. */
  lemma {:induction false} SplitJoin(parts: seq<string>, sep: char)
    requires |parts| >= 1
    requires forall k :: 0 <= k < |parts| ==> sep !in parts[k]
    ensures Split(Join(parts, sep), sep) == parts
  {
    var s := Join(parts, sep);
    if |parts| == 1 {
      assert sep !in s;
    } else {
      var tail := Join(parts[1..], sep);
      assert s == parts[0] + [sep] + tail;
      IndexOfAfterPrefix(parts[0], sep, tail);
      var i := |parts[0]|;
      assert IndexOf(s, sep) == i;
      assert s[..i] == parts[0];
      assert s[i + 1..] == tail;
      assert Split(s, sep) == [parts[0]] + Split(tail, sep);
      SplitJoin(parts[1..], sep);
      assert parts == [parts[0]] + parts[1..];
    }
  }

  /** ASCII upper-case letters mapped to lower case; every other character kept. */
  function LowerChar(c: char): char {
    if 'A' <= c <= 'Z' then (c as int + 32) as char else c
  }

  /** `s.toLowerCase()` restricted to the ASCII letters. */
  function Lower(s: string): (r: string)
    ensures |r| == |s|
    ensures forall i :: 0 <= i < |s| ==> r[i] == LowerChar(s[i])
    ensures forall i :: 0 <= i < |r| ==> !('A' <= r[i] <= 'Z')
  {
    seq(|s|, i requires 0 <= i < |s| => LowerChar(s[i]))
  }

  /** Lower-casing twice is lower-casing once, and a text without an ASCII capital is its
      own lower case. */
  lemma LowerIdempotent(s: string)
    ensures Lower(Lower(s)) == Lower(s)
    ensures (forall i :: 0 <= i < |s| ==> !('A' <= s[i] <= 'Z')) ==> Lower(s) == s
  {
    var once := Lower(s);
    assert forall i :: 0 <= i < |once| ==> LowerChar(once[i]) == once[i];
    assert Lower(once) == once;
  }

  /** `s.includes(sub)`. */
  predicate Contains(s: string, sub: string) {
    exists i | 0 <= i <= |s| :: sub <= s[i..]
  }

  function DigitChar(d: nat): char
    requires d < 10
  {
    ('0' as int + d) as char
  }

  /** The decimal numeral of `n`, as `String(n)` writes it. */
  function NatToDecimal(n: nat): (r: string)
    ensures |r| >= 1 && '0' <= r[|r| - 1] <= '9'
    decreases n
  {
    if n < 10 then [DigitChar(n)] else NatToDecimal(n / 10) + [DigitChar(n % 10)]
  }

  /** Different numbers have different numerals, so a row id is found by its text. */
  lemma {:induction false} NatToDecimalInjective(m: nat, n: nat)
    requires NatToDecimal(m) == NatToDecimal(n)
    ensures m == n
    decreases m
  {
    var s := NatToDecimal(m);
    if m >= 10 && n >= 10 {
      assert s[|s| - 1] == DigitChar(m % 10) == DigitChar(n % 10);
      assert s[..|s| - 1] == NatToDecimal(m / 10) == NatToDecimal(n / 10);
      NatToDecimalInjective(m / 10, n / 10);
    }
  }

  lemma DigitNotSpace(c: char)
    requires '0' <= c <= '9'
    ensures !IsSpace(c)
  {
  }

  /** A non-empty run of decimal digits. */
  predicate IsDigits(s: string) {
    s != [] && forall i :: 0 <= i < |s| ==> '0' <= s[i] <= '9'
  }

  /** The number a run of decimal digits denotes. */
  function DecimalValue(s: string): nat
    requires forall i :: 0 <= i < |s| ==> '0' <= s[i] <= '9'
  {
    if s == [] then 0 else 10 * DecimalValue(s[..|s| - 1]) + (s[|s| - 1] as int - '0' as int)
  }

  /** Reading the numeral of `n` gives back `n`. */
  lemma {:induction false} DecimalRoundTrip(n: nat)
    ensures IsDigits(NatToDecimal(n)) && DecimalValue(NatToDecimal(n)) == n
    decreases n
  {
    var s := NatToDecimal(n);
    if n >= 10 {
      DecimalRoundTrip(n / 10);
      assert s[..|s| - 1] == NatToDecimal(n / 10);
    }
  }

  /** A text that starts and ends with a non-space character is its own trim. */
  lemma TrimKeeps(s: string)
    requires s != [] && !IsSpace(s[0]) && !IsSpace(s[|s| - 1])
    ensures Trim(s) == s
  {
    assert SkipSpaces(s, 0) == 0;
    assert SkipSpacesBack(s, 0, |s|) == |s|;
    assert s[0..|s|] == s;
  }

  function IntToDecimal(n: int): string {
    if n < 0 then "-" + NatToDecimal(-n) else NatToDecimal(n)
  }

  /** `s[lo..hi]` is a non-empty run of non-blank characters: what `\S+` matches there. */
  predicate Run(s: string, lo: int, hi: int) {
    0 <= lo < hi <= |s| && forall p :: lo <= p < hi ==> !IsSpace(s[p])
  }

  /** The characters strictly between `lo` and `hi` form a non-empty non-blank run. */
  predicate RunBetween(s: string, lo: int, hi: int) {
    0 <= lo && lo + 1 < hi <= |s| && forall p :: lo < p < hi ==> !IsSpace(s[p])
  }

  /** `s[i..a]`, '@', `s[a+1..k]`, '.', `s[k+1..j]`: the three non-blank runs and two
      literal characters of `\S+@\S+\.\S+`, placed at these positions. */
  predicate EmailRegexAt(s: string, i: int, a: int, k: int, j: int) {
    Run(s, i, a) && RunBetween(s, a, k) && RunBetween(s, k, j) && s[a] == '@' && s[k] == '.'
  }

  /** The regular expression `\S+@\S+\.\S+` (unanchored) matches somewhere in `s`. */
  ghost predicate MatchesEmailRegex(s: string) {
    exists i, a, k, j :: EmailRegexAt(s, i, a, k, j)
  }

  /** An '@' at `a` with a non-blank character before it, then a '.' at `k`, at least two
      places later, with only non-blank characters in between and a non-blank one after. */
  predicate EmailCoreAt(s: string, a: int, k: int) {
    && 1 <= a && a + 2 <= k && k + 2 <= |s|
    && s[a] == '@' && s[k] == '.' && !IsSpace(s[a - 1]) && !IsSpace(s[k + 1])
    && RunBetween(s, a, k)
  }

  /** The executable test: the shortest possible match somewhere in `s`. */
  predicate EmailShaped(s: string) {
    exists a, k | 0 <= a < k < |s| :: EmailCoreAt(s, a, k)
  }

  lemma EmailShapedMatches(s: string)
    requires EmailShaped(s)
    ensures MatchesEmailRegex(s)
  {
    var a, k :| 0 <= a < k < |s| && EmailCoreAt(s, a, k);
    assert EmailRegexAt(s, a - 1, a, k, k + 2);
  }

  lemma RegexMatchIsEmailShaped(s: string)
    requires MatchesEmailRegex(s)
    ensures EmailShaped(s)
  {
    var i, a, k, j :| EmailRegexAt(s, i, a, k, j);
    assert !IsSpace(s[a - 1]);
    assert !IsSpace(s[k + 1]);
    assert EmailCoreAt(s, a, k);
  }

  /** The executable test decides exactly the regular expression. */
  lemma EmailShapedIsRegex(s: string)
    ensures EmailShaped(s) <==> MatchesEmailRegex(s)
  {
    if EmailShaped(s) { EmailShapedMatches(s); }
    if MatchesEmailRegex(s) { RegexMatchIsEmailShaped(s); }
  }

  /** A character the phone pattern's class `[\d\s\-\(\)]` admits. */
  predicate PhoneChar(c: char) {
    '0' <= c <= '9' || IsSpace(c) || c == '-' || c == '(' || c == ')'
  }

  predicate AllPhoneChars(body: string) {
    |body| > 0 && forall i :: 0 <= i < |body| ==> PhoneChar(body[i])
  }

  /** The regular expression `^\+?[\d\s\-\(\)]+$`: an optional '+' and then one or more
      admitted characters, nothing else. */
  ghost predicate MatchesPhoneRegex(s: string) {
    exists body :: AllPhoneChars(body) && (s == body || s == "+" + body)
  }

  /** The executable test: drop one leading '+', then every remaining character is admitted
      and there is at least one. */
  predicate PhoneShaped(s: string) {
    AllPhoneChars(if |s| > 0 && s[0] == '+' then s[1..] else s)
  }

  lemma PhoneShapedIsRegex(s: string)
    ensures PhoneShaped(s) <==> MatchesPhoneRegex(s)
  {
    if MatchesPhoneRegex(s) {
      var body :| AllPhoneChars(body) && (s == body || s == "+" + body);
      if s == "+" + body {
        assert s[1..] == body;
      } else {
        assert !PhoneChar('+');
      }
    }
    if PhoneShaped(s) && |s| > 0 && s[0] == '+' {
      assert s == "+" + s[1..];
    }
  }
}
