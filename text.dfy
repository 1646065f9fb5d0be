/** The string primitives the source relies on, written out with Python's and
    JavaScript's semantics: `str.strip`/`String.prototype.trim`, `str.lstrip(chars)`,
    `str.find`, `str.split(sep)`, `sep.join`, `str.replace(old, new[, 1])`,
    `str(int)` and `int(str)`.  Strings are sequences of Unicode scalar values. */
module Text {
  import opened Common

  /** Which language's notion of white space a strip uses. */
  datatype Lang = Python | JavaScript

  /** Python `str.isspace()` versus the ECMAScript WhiteSpace and LineTerminator
      sets used by `trim()`.  They share most code points; Python adds the
      information separators U+001C..U+001F and NEL, JavaScript adds the BOM. */
  predicate IsSpace(lang: Lang, c: char) {
    || c == ' '
    || ('\t' <= c <= '\r')
    || c == '\U{00A0}' || c == '\U{1680}'
    || ('\U{2000}' <= c <= '\U{200A}')
    || c == '\U{2028}' || c == '\U{2029}' || c == '\U{202F}' || c == '\U{205F}' || c == '\U{3000}'
    || (lang == Python && (('\U{001C}' <= c <= '\U{001F}') || c == '\U{0085}'))
    || (lang == JavaScript && c == '\U{FEFF}')
  }

  predicate AllSpace(lang: Lang, s: string) {
    forall k :: 0 <= k < |s| ==> IsSpace(lang, s[k])
  }

  /** Neither end of `s` is white space (true of the empty string). */
  predicate Unpadded(lang: Lang, s: string) {
    s == [] || (!IsSpace(lang, s[0]) && !IsSpace(lang, s[|s| - 1]))
  }

  lemma ConsSpace(lang: Lang, c: char, t: string)
    requires IsSpace(lang, c) && AllSpace(lang, t)
    ensures AllSpace(lang, [c] + t)
  {
    assert forall k :: 0 < k <= |t| ==> ([c] + t)[k] == t[k - 1];
  }

  lemma SnocSpace(lang: Lang, t: string, c: char)
    requires AllSpace(lang, t) && IsSpace(lang, c)
    ensures AllSpace(lang, t + [c])
  {
    assert forall k :: 0 <= k < |t| ==> (t + [c])[k] == t[k];
  }

  /** `s.lstrip()`: the suffix left after dropping leading white space. */
  function LStrip(lang: Lang, s: string): (r: string)
    ensures |r| <= |s| && r == s[|s| - |r|..]
    ensures AllSpace(lang, s[..|s| - |r|])
    ensures r != [] ==> !IsSpace(lang, r[0])
  {
    if |s| > 0 && IsSpace(lang, s[0]) then
      var r := LStrip(lang, s[1..]);
      assert s[..|s| - |r|] == [s[0]] + s[1..][..|s| - 1 - |r|];
      ConsSpace(lang, s[0], s[1..][..|s| - 1 - |r|]);
      r
    else s
  }

  /** `s.rstrip()`: the prefix left after dropping trailing white space. */
  function RStrip(lang: Lang, s: string): (r: string)
    ensures |r| <= |s| && r == s[..|r|]
    ensures AllSpace(lang, s[|r|..])
    ensures r != [] ==> !IsSpace(lang, r[|r| - 1])
  {
    if |s| > 0 && IsSpace(lang, s[|s| - 1]) then
      var r := RStrip(lang, s[..|s| - 1]);
      assert s[|r|..] == s[..|s| - 1][|r|..] + [s[|s| - 1]];
      SnocSpace(lang, s[..|s| - 1][|r|..], s[|s| - 1]);
      r
    else s
  }

  /** Python `s.strip()` / JavaScript `s.trim()`. */
  function Strip(lang: Lang, s: string): (r: string)
    ensures Unpadded(lang, r)
    ensures |r| <= |s|
  {
    RStrip(lang, LStrip(lang, s))
  }

  /** Stripping white space around an unpadded text gives back that text:
      the strip of `s` is determined by `s` alone, whatever padding was added. */
  lemma {:induction false} StripPadded(lang: Lang, pre: string, t: string, post: string)
    requires AllSpace(lang, pre) && AllSpace(lang, post) && Unpadded(lang, t)
    ensures Strip(lang, pre + t + post) == t
  {
    if t == [] {
      assert AllSpace(lang, pre + t + post);
    } else {
      assert pre + t + post == pre + (t + post);
      LStripPadded(lang, pre, t + post);
      RStripPadded(lang, t, post);
    }
  }

  lemma {:induction false} LStripPadded(lang: Lang, pre: string, u: string)
    requires AllSpace(lang, pre) && (u == [] || !IsSpace(lang, u[0]))
    ensures LStrip(lang, pre + u) == u
    decreases |pre|
  {
    if pre != [] {
      assert (pre + u)[1..] == pre[1..] + u;
      LStripPadded(lang, pre[1..], u);
    }
  }

  lemma {:induction false} RStripPadded(lang: Lang, t: string, post: string)
    requires AllSpace(lang, post) && (t == [] || !IsSpace(lang, t[|t| - 1]))
    ensures RStrip(lang, t + post) == t
    decreases |post|
  {
    if post != [] {
      assert (t + post)[..|t + post| - 1] == t + post[..|post| - 1];
      RStripPadded(lang, t, post[..|post| - 1]);
    } else {
      assert t + post == t;
    }
  }

  /** Stripping is idempotent. */
  lemma StripIdempotent(lang: Lang, s: string)
    ensures Strip(lang, Strip(lang, s)) == Strip(lang, s)
  {
    var t := Strip(lang, s);
    StripPadded(lang, [], t, []);
    assert [] + t + [] == t;
  }

  /** JavaScript `!s.trim()`: the text is empty once trimmed, which by
      `StripEmpty` is when it is all white space. */
  predicate Blank(s: string) {
    AllSpace(JavaScript, s)
  }

  /** A text strips to nothing exactly when every character of it is white
      space. */
  lemma StripEmpty(lang: Lang, s: string)
    ensures Strip(lang, s) == [] <==> AllSpace(lang, s)
  {
    var t := LStrip(lang, s);
    if AllSpace(lang, s) {
      LStripAllSpace(lang, s);
    }
    if RStrip(lang, t) == [] {
      assert t[0..] == t;
      assert t == [];
      assert s[..|s|] == s;
    }
  }

  lemma {:induction false} LStripAllSpace(lang: Lang, s: string)
    requires AllSpace(lang, s)
    ensures LStrip(lang, s) == []
  {
    if |s| > 0 {
      assert IsSpace(lang, s[0]);
      LStripAllSpace(lang, s[1..]);
    }
  }

  /** `s.lstrip(chars)`: drop the longest prefix made of characters in `chars`. */
  function LStripChars(s: string, chars: set<char>): (r: string)
    ensures |r| <= |s| && r == s[|s| - |r|..]
    ensures forall k :: 0 <= k < |s| - |r| ==> s[k] in chars
    ensures r != [] ==> r[0] !in chars
  {
    if |s| > 0 && s[0] in chars then LStripChars(s[1..], chars) else s
  }

  // ---------------------------------------------------------------------------
  // Searching

  /** `pat` occurs in `s` starting at index `i`. */
  predicate OccursAt(s: string, pat: string, i: int) {
    0 <= i && i + |pat| <= |s| && s[i..i + |pat|] == pat
  }

  /** Python's `pat in s`. */
  predicate Contains(s: string, pat: string) {
    exists i :: 0 <= i <= |s| - |pat| && OccursAt(s, pat, i)
  }

  /** `s.find(pat)`: the lowest index at which `pat` occurs, or -1. */
  function Find(s: string, pat: string): (r: int)
    requires pat != []
    ensures r == -1 || OccursAt(s, pat, r)
    ensures r == -1 <==> !Contains(s, pat)
    ensures forall j :: 0 <= j < r ==> !OccursAt(s, pat, j)
    decreases |s|
  {
    if |s| < |pat| then -1
    else if s[..|pat|] == pat then (assert OccursAt(s, pat, 0); 0)
    else
      var k := Find(s[1..], pat);
      FindStep(s, pat);
      if k < 0 then -1 else k + 1
  }

  /** When `pat` does not start `s`, the occurrences in `s` are those of `s[1..]`
      shifted by one. */
  lemma FindStep(s: string, pat: string)
    requires |s| >= |pat| >= 1 && s[..|pat|] != pat
    ensures !OccursAt(s, pat, 0)
    ensures forall j :: 0 <= j ==> (OccursAt(s[1..], pat, j) ==> OccursAt(s, pat, j + 1))
    ensures forall j :: 1 <= j ==> (OccursAt(s, pat, j) ==> OccursAt(s[1..], pat, j - 1))
    ensures Contains(s, pat) <==> Contains(s[1..], pat)
  {
    ShiftOccurrence(s, pat);
    if Contains(s, pat) {
      var i :| 0 <= i <= |s| - |pat| && OccursAt(s, pat, i);
      assert i != 0;
      assert OccursAt(s[1..], pat, i - 1);
    }
    if Contains(s[1..], pat) {
      var i :| 0 <= i <= |s[1..]| - |pat| && OccursAt(s[1..], pat, i);
      assert OccursAt(s, pat, i + 1);
    }
  }

  /** An occurrence in `s` at `j + 1` is an occurrence in `s[1..]` at `j`. */
  lemma ShiftOccurrence(s: string, pat: string)
    requires |s| >= 1
    ensures forall j :: 0 <= j ==> (OccursAt(s[1..], pat, j) ==> OccursAt(s, pat, j + 1))
    ensures forall j :: 1 <= j ==> (OccursAt(s, pat, j) ==> OccursAt(s[1..], pat, j - 1))
  {
    forall j | 0 <= j && OccursAt(s[1..], pat, j)
      ensures OccursAt(s, pat, j + 1)
    {
      assert s[j + 1..j + 1 + |pat|] == s[1..][j..j + |pat|];
    }
    forall j | 1 <= j && OccursAt(s, pat, j)
      ensures OccursAt(s[1..], pat, j - 1)
    {
      var u, w := s[1..][j - 1..j - 1 + |pat|], s[j..j + |pat|];
      forall m | 0 <= m < |pat|
        ensures u[m] == w[m]
      {
      }
      assert u == w;
    }
  }

  /** Past a prefix, the occurrences in `a + b` are those of `b`, shifted. */
  lemma OccursPastPrefix(a: string, b: string, pat: string, i: int)
    requires |a| <= i
    ensures OccursAt(a + b, pat, i) <==> OccursAt(b, pat, i - |a|)
  {
    var s, j := a + b, i - |a|;
    if i + |pat| <= |s| {
      var u, w := s[i..i + |pat|], b[j..j + |pat|];
      forall m | 0 <= m < |pat|
        ensures u[m] == w[m]
      {
        assert u[m] == s[i + m] == b[j + m];
      }
      assert u == w;
    }
  }

  /** `Find` is pinned down by any occurrence with none before it. */
  lemma FindIs(s: string, pat: string, i: int)
    requires pat != [] && OccursAt(s, pat, i)
    requires forall j :: 0 <= j < i ==> !OccursAt(s, pat, j)
    ensures Find(s, pat) == i
  {
  }

  /** A pattern whose last character occurs nowhere else in it, such as the
      markers `"SOLUTION:"` or `"\n"`, cannot overlap itself. */
  predicate LastCharUnique(pat: string) {
    pat != [] && forall k :: 0 <= k < |pat| - 1 ==> pat[k] != pat[|pat| - 1]
  }

  /** A pattern is checked for that one membership test at a time. */
  lemma LastCharUniqueOf(init: string, last: char)
    requires last !in init
    ensures LastCharUnique(init + [last])
  {
  }

  /** If no occurrence of such a pattern lies inside `a`, its first occurrence
      in `a + pat + b` is the one right after `a`. */
  lemma FindAfter(a: string, pat: string, b: string)
    requires LastCharUnique(pat) && !Contains(a, pat)
    ensures Find(a + pat + b, pat) == |a|
  {
    var s := a + pat + b;
    var n := |pat|;
    assert s[|a|..|a| + n] == pat;
    forall j | 0 <= j < |a|
      ensures !OccursAt(s, pat, j)
    {
      if j + n <= |a| {
        assert s[j..j + n] == a[j..j + n];
        assert !OccursAt(a, pat, j);
      } else {
        // the last character of a match here would fall inside `pat`, before its end
        var e := j + n - 1;
        assert s[e] == pat[e - |a|] != pat[n - 1];
        assert s[j..j + n][n - 1] == s[e];
      }
    }
    FindIs(s, pat, |a|);
  }

  /** A pattern containing a character absent from `s` does not occur in `s`. */
  lemma AbsentChar(s: string, pat: string, c: char)
    requires c in pat && c !in s
    ensures !Contains(s, pat)
  {
    var k :| 0 <= k < |pat| && pat[k] == c;
    forall i | 0 <= i <= |s| - |pat|
      ensures !OccursAt(s, pat, i)
    {
      assert s[i..i + |pat|][k] == s[i + k] != c;
    }
  }

  /** Prefixing a character that does not start the pattern adds no occurrence. */
  lemma PrependNoStart(c: char, t: string, pat: string)
    requires pat != [] && pat[0] != c && !Contains(t, pat)
    ensures !Contains([c] + t, pat)
  {
    var s := [c] + t;
    forall i | 0 <= i <= |s| - |pat|
      ensures !OccursAt(s, pat, i)
    {
      if i == 0 {
        assert s[0..|pat|][0] == c;
      } else {
        assert s[i..i + |pat|] == t[i - 1..i - 1 + |pat|];
        assert !OccursAt(t, pat, i - 1);
      }
    }
  }

  // ---------------------------------------------------------------------------
  // Splitting, joining, replacing

  /** Concatenation regrouped; calling this spares the solver an element-wise
      comparison. */
  lemma ConcatAssoc(a: string, b: string, c: string)
    ensures a + b + c == a + (b + c)
  {
  }

  /** `sep.join(parts)`. */
  function Join(parts: seq<string>, sep: string): string {
    if |parts| == 0 then ""
    else if |parts| == 1 then parts[0]
    else parts[0] + sep + Join(parts[1..], sep)
  }

  /** Python `s.split(sep)` for a non-empty separator (an empty one raises
      `ValueError`, which the source never triggers): the pieces between the
      non-overlapping occurrences of `sep`, scanning from the left. */
  function Split(s: string, sep: string): (parts: seq<string>)
    requires sep != []
    ensures |parts| >= 1
    ensures |parts| == 1 <==> !Contains(s, sep)
    ensures forall k :: 0 <= k < |parts| ==> !Contains(parts[k], sep)
    ensures Join(parts, sep) == s
    decreases |s|
  {
    var i := Find(s, sep);
    if i < 0 then [s]
    else
      var rest := Split(s[i + |sep|..], sep);
      SplitStep(s, sep, i, rest);
      [s[..i]] + rest
  }

  /** The piece in front of the first separator, followed by the split of the
      remainder, keeps the contract of `Split`. */
  lemma SplitStep(s: string, sep: string, i: int, rest: seq<string>)
    requires sep != [] && OccursAt(s, sep, i)
    requires forall j :: 0 <= j < i ==> !OccursAt(s, sep, j)
    requires |rest| >= 1 && Join(rest, sep) == s[i + |sep|..]
    requires forall k :: 0 <= k < |rest| ==> !Contains(rest[k], sep)
    ensures var parts := [s[..i]] + rest;
      && |parts| >= 2 && Contains(s, sep)
      && (forall k :: 0 <= k < |parts| ==> !Contains(parts[k], sep))
      && Join(parts, sep) == s
  {
    var parts := [s[..i]] + rest;
    PrefixBeforeFirst(s, sep, i);
    assert parts[1..] == rest;
    assert s == s[..i] + sep + s[i + |sep|..] by {
      assert s[i..i + |sep|] == sep;
    }
    forall k | 0 <= k < |parts|
      ensures !Contains(parts[k], sep)
    {
      if k > 0 { assert parts[k] == rest[k - 1]; }
    }
  }

  /** The text in front of the first occurrence holds no occurrence. */
  lemma PrefixBeforeFirst(s: string, sep: string, i: int)
    requires sep != [] && 0 <= i <= |s|
    requires forall j :: 0 <= j < i ==> !OccursAt(s, sep, j)
    ensures !Contains(s[..i], sep)
  {
    forall j | 0 <= j <= i - |sep|
      ensures !OccursAt(s[..i], sep, j)
    {
      assert s[..i][j..j + |sep|] == s[j..j + |sep|];
      assert !OccursAt(s, sep, j);
    }
  }

  /** Splitting where the separator makes its first appearance right after `a`. */
  lemma SplitAfter(a: string, sep: string, b: string)
    requires LastCharUnique(sep) && !Contains(a, sep)
    ensures Split(a + sep + b, sep) == [a] + Split(b, sep)
  {
    var s := a + sep + b;
    FindAfter(a, sep, b);
    assert s[..|a|] == a;
    assert s[|a| + |sep|..] == b;
  }

  /** A text without the separator splits into itself. */
  lemma SplitAbsent(s: string, sep: string)
    requires sep != [] && !Contains(s, sep)
    ensures Split(s, sep) == [s]
  {
  }

  /** A text with exactly one separator splits into the two sides. */
  lemma SplitTwo(a: string, sep: string, b: string)
    requires LastCharUnique(sep) && !Contains(a, sep) && !Contains(b, sep)
    ensures Split(a + sep + b, sep) == [a, b]
  {
    SplitAfter(a, sep, b);
    SplitAbsent(b, sep);
  }

  /** Number of occurrences of the character `c` in `s`. */
  function Count(s: string, c: char): nat {
    multiset(s)[c]
  }

  /** Splitting on a one-character separator gives one piece more than the
      number of times that character occurs. */
  lemma {:induction false} SplitCharCount(s: string, c: char)
    ensures |Split(s, [c])| == Count(s, c) + 1
    decreases |s|
  {
    var i := Find(s, [c]);
    if i < 0 {
      CharAbsent(s, c);
    } else {
      assert s == s[..i] + [c] + s[i + 1..] by {
        assert s[i..i + 1] == [c];
      }
      PrefixBeforeFirst(s, [c], i);
      CharAbsent(s[..i], c);
      assert multiset(s) == multiset(s[..i]) + multiset([c]) + multiset(s[i + 1..]);
      SplitCharCount(s[i + 1..], c);
    }
  }

  /** A one-character pattern that does not occur means the character is absent. */
  lemma CharAbsent(s: string, c: char)
    requires !Contains(s, [c])
    ensures c !in s
  {
    forall k | 0 <= k < |s|
      ensures s[k] != c
    {
      assert s[k..k + 1] == [s[k]];
      assert !OccursAt(s, [c], k);
    }
  }

  /** Python `s.replace(pat, repl)`: every non-overlapping occurrence, from the left. */
  function ReplaceAll(s: string, pat: string, repl: string): (r: string)
    requires pat != []
    ensures r == Join(Split(s, pat), repl)
    ensures !Contains(s, pat) ==> r == s
    decreases |s|
  {
    var i := Find(s, pat);
    if i < 0 then s
    else
      s[..i] + repl + ReplaceAll(s[i + |pat|..], pat, repl)
  }

  /** Python `s.replace(pat, repl, 1)`: only the first occurrence. */
  function ReplaceFirst(s: string, pat: string, repl: string): (r: string)
    requires pat != []
    ensures !Contains(s, pat) ==> r == s
    ensures Contains(s, pat) ==>
      exists i :: && OccursAt(s, pat, i) && r == s[..i] + repl + s[i + |pat|..]
                  && forall j :: 0 <= j < i ==> !OccursAt(s, pat, j)
    ensures forall c :: c in r ==> c in s || c in repl
  {
    var i := Find(s, pat);
    if i < 0 then s else s[..i] + repl + s[i + |pat|..]
  }

  /** The first occurrence of a pattern that starts the text is the one replaced. */
  lemma ReplaceFirstAtStart(pat: string, rest: string, repl: string)
    requires pat != []
    ensures ReplaceFirst(pat + rest, pat, repl) == repl + rest
  {
    var s := pat + rest;
    assert s[..|pat|] == pat;
    FindIs(s, pat, 0);
    assert s[..0] + repl + s[|pat|..] == repl + rest;
  }

  // ---------------------------------------------------------------------------
  // Decimal integers

  predicate IsDigit(c: char) { '0' <= c <= '9' }

  function DigitChar(d: nat): (c: char)
    requires d < 10
    ensures IsDigit(c)
  {
    ('0' as int + d) as char
  }

  function DigitValue(c: char): (d: nat)
    requires IsDigit(c)
    ensures d < 10 && DigitChar(d) == c
  {
    (c as int - '0' as int) as nat
  }

  /** The value of a string of decimal digits, most significant first. */
  function DigitsValue(ds: string): nat
    requires forall k :: 0 <= k < |ds| ==> IsDigit(ds[k])
  {
    if ds == [] then 0 else DigitsValue(ds[..|ds| - 1]) * 10 + DigitValue(ds[|ds| - 1])
  }

  /** Decimal digits of a natural number, no leading zeros. */
  function NatToString(n: nat): (s: string)
    ensures s != [] && forall k :: 0 <= k < |s| ==> IsDigit(s[k])
  {
    if n < 10 then [DigitChar(n)] else NatToString(n / 10) + [DigitChar(n % 10)]
  }

  /** Python `str(n)` / an f-string field for an `int`. */
  function IntToString(n: int): (s: string)
    ensures s != [] && IsDigit(s[|s| - 1])
    ensures forall k :: 0 <= k < |s| ==> IsDigit(s[k]) || (k == 0 && s[k] == '-')
  {
    if n < 0 then "-" + NatToString(-n) else NatToString(n)
  }

  predicate AllDigits(s: string) {
    s != [] && forall k :: 0 <= k < |s| ==> IsDigit(s[k])
  }

  /** Python `int(s)` on an already stripped string: an optional sign followed by
      at least one decimal digit; anything else raises `ValueError` (`None`). */
  function ParseInt(s: string): (r: Option<int>)
    ensures r.Some? <==> AllDigits(s) || (|s| >= 2 && (s[0] == '+' || s[0] == '-') && AllDigits(s[1..]))
  {
    if |s| >= 1 && (s[0] == '+' || s[0] == '-') then
      if AllDigits(s[1..]) then
        var v: int := DigitsValue(s[1..]);
        Some(if s[0] == '-' then -v else v)
      else None
    else if AllDigits(s) then Some(DigitsValue(s))
    else None
  }

  lemma {:induction false} NatToStringValue(n: nat)
    ensures DigitsValue(NatToString(n)) == n
  {
    var s := NatToString(n);
    if n >= 10 {
      var init, last := NatToString(n / 10), DigitChar(n % 10);
      assert s[..|s| - 1] == init && s[|s| - 1] == last;
      NatToStringValue(n / 10);
      assert DigitValue(last) == n % 10;
      assert DigitsValue(s) == DigitsValue(init) * 10 + DigitValue(last);
    } else {
      assert DigitsValue(s) == DigitsValue([]) * 10 + DigitValue(s[0]);
    }
  }

  /** `int` of a digit string is its value. */
  lemma ParseUnsigned(s: string)
    requires AllDigits(s)
    ensures ParseInt(s) == Some(DigitsValue(s))
  {
    assert IsDigit(s[0]);
  }

  /** `int` of a minus sign and a digit string is minus its value. */
  lemma ParseNegative(s: string)
    requires AllDigits(s)
    ensures ParseInt("-" + s) == Some(-(DigitsValue(s) as int))
  {
    assert ("-" + s)[1..] == s;
  }

  /** `int(str(n)) == n`. */
  lemma ParseShownInt(n: int)
    ensures ParseInt(IntToString(n)) == Some(n)
  {
    if n < 0 {
      NatToStringValue(-n);
      ParseNegative(NatToString(-n));
    } else {
      NatToStringValue(n);
      ParseUnsigned(NatToString(n));
    }
  }

  /** The decimal form of an integer holds only digits and a minus sign. */
  lemma ShownIntChars(n: int, c: char)
    requires c in IntToString(n)
    ensures IsDigit(c) || c == '-'
  {
  }

  /** The decimal form of an integer has no white space at either end. */
  lemma ShownIntUnpadded(lang: Lang, n: int)
    ensures Unpadded(lang, IntToString(n))
  {
  }
}
