/**
 * The JavaScript string built-ins the interview logic relies on, over `string` (`seq<char>`):
 * `trim`, `toLowerCase`, `includes` and `split` with a one-character separator, and the decimal
 * conversions `NatToString`, `IntToString` (`toString` of a number) and `ParseNat` (reading digits back).
 */
module Text {

  /** The characters `String.prototype.trim` removes: ECMAScript WhiteSpace and LineTerminator. */
  predicate IsWhitespace(c: char)
  {
    || c == ' ' || c == '\t' || c == '\n' || c == '\r'
    || c == '\U{000B}' || c == '\U{000C}' || c == '\U{00A0}' || c == '\U{1680}'
    || ('\U{2000}' <= c <= '\U{200A}')
    || c == '\U{2028}' || c == '\U{2029}' || c == '\U{202F}' || c == '\U{205F}'
    || c == '\U{3000}' || c == '\U{FEFF}'
  }

  /** A string made only of whitespace (JS `s.trim()` is falsy). */
  predicate IsBlank(s: string)
  {
    forall i :: 0 <= i < |s| ==> IsWhitespace(s[i])
  }

  predicate IsAsciiUpper(c: char) { 'A' <= c <= 'Z' }

  predicate IsAsciiLower(c: char) { 'a' <= c <= 'z' }

  /** The regular-expression class `\d`. */
  predicate IsDigit(c: char) { '0' <= c <= '9' }

  /** Number of whitespace characters at the front of `s`. */
  function LeadingSpace(s: string): (n: nat)
    ensures n <= |s|
    ensures forall i :: 0 <= i < n ==> IsWhitespace(s[i])
    ensures n < |s| ==> !IsWhitespace(s[n])
  {
    if |s| > 0 && IsWhitespace(s[0]) then 1 + LeadingSpace(s[1..]) else 0
  }

  /** Number of whitespace characters at the back of `s`. */
  function TrailingSpace(s: string): (n: nat)
    ensures n <= |s|
    ensures forall i :: |s| - n <= i < |s| ==> IsWhitespace(s[i])
    ensures n < |s| ==> !IsWhitespace(s[|s| - 1 - n])
  {
    if |s| > 0 && IsWhitespace(s[|s| - 1]) then 1 + TrailingSpace(s[..|s| - 1]) else 0
  }

  /** Where the trim of `s` ends: before its trailing whitespace, or at the end for a blank `s`. */
  function TrimEnd(s: string): (e: nat)
    ensures LeadingSpace(s) <= e <= |s|
    ensures forall i :: e <= i < |s| ==> IsWhitespace(s[i])
    ensures LeadingSpace(s) < |s| ==> LeadingSpace(s) < e && !IsWhitespace(s[e - 1])
  {
    if LeadingSpace(s) == |s| then |s| else |s| - TrailingSpace(s)
  }

  /** `s.trim()`: `s` without its leading and trailing whitespace. */
  function Trim(s: string): (r: string)
    ensures |r| <= |s|
    ensures r == [] <==> IsBlank(s)
    ensures r != [] ==> !IsWhitespace(r[0]) && !IsWhitespace(r[|r| - 1])
  {
    s[LeadingSpace(s)..TrimEnd(s)]
  }

  /** The trim of `s` is the stretch after its leading whitespace, with only whitespace after it. */
  lemma TrimAt(s: string)
    ensures var k, r := LeadingSpace(s), Trim(s);
            k <= |s| - |r| && s[k..k + |r|] == r && IsBlank(s[..k]) && IsBlank(s[k + |r|..])
  {
    var lead, end := LeadingSpace(s), TrimEnd(s);
    BlankFront(s, lead);
    BlankBack(s, |s| - end);
  }

  /** A front of whitespace characters is blank. */
  lemma BlankFront(s: string, n: int)
    requires 0 <= n <= |s| && forall i :: 0 <= i < n ==> IsWhitespace(s[i])
    ensures IsBlank(s[..n])
  {
    assert forall i :: 0 <= i < n ==> s[..n][i] == s[i];
  }

  /** A back of whitespace characters is blank. */
  lemma BlankBack(s: string, n: int)
    requires 0 <= n <= |s| && forall i :: |s| - n <= i < |s| ==> IsWhitespace(s[i])
    ensures IsBlank(s[|s| - n..])
  {
    var back := s[|s| - n..];
    forall j | 0 <= j < |back| ensures IsWhitespace(back[j]) {
      assert back[j] == s[|s| - n + j];
    }
  }

  /**
   * Trimming is determined by its result: a stretch of `s` with only whitespace around it, that is
   * empty or starts and ends with a non-whitespace character, is the trim of `s`.
   */
  lemma TrimUnique(s: string, r: string, k: int)
    requires 0 <= k <= |s| - |r| && s[k..k + |r|] == r && IsBlank(s[..k]) && IsBlank(s[k + |r|..])
    requires r == [] || (!IsWhitespace(r[0]) && !IsWhitespace(r[|r| - 1]))
    ensures Trim(s) == r
  {
    var t := Trim(s);
    var k' := LeadingSpace(s);
    TrimAt(s);
    BlankOutside(s, k, k + |r|);
    BlankOutside(s, k', k' + |t|);
    if r != [] {
      assert s[k] == r[0] && s[k + |r| - 1] == r[|r| - 1];
      if t != [] {
        assert s[k'] == t[0] && s[k' + |t| - 1] == t[|t| - 1];
      }
    }
  }

  /** The whitespace around a stretch `s[a..b]`, stated position by position. */
  lemma BlankOutside(s: string, a: int, b: int)
    requires 0 <= a <= b <= |s| && IsBlank(s[..a]) && IsBlank(s[b..])
    ensures forall i :: 0 <= i < a ==> IsWhitespace(s[i])
    ensures forall i :: b <= i < |s| ==> IsWhitespace(s[i])
  {
    forall i | 0 <= i < a ensures IsWhitespace(s[i]) {
      assert s[..a][i] == s[i];
    }
    forall i | b <= i < |s| ensures IsWhitespace(s[i]) {
      assert s[b..][i - b] == s[i];
    }
  }

  /** Whitespace added around a string does not change its trim. */
  lemma TrimPadded(pre: string, s: string, post: string)
    requires IsBlank(pre) && IsBlank(post)
    ensures Trim(pre + s + post) == Trim(s)
  {
    var k := LeadingSpace(s);
    TrimAt(s);
    TrimPaddedAt(pre, s, post, pre + s + post, Trim(s), k);
  }

  /** The stretch `t` of `s`, once `s` is padded to `w`, is the trim of `w`. */
  lemma TrimPaddedAt(pre: string, s: string, post: string, w: string, t: string, k: int)
    requires w == pre + s + post && IsBlank(pre) && IsBlank(post)
    requires 0 <= k <= |s| - |t| && s[k..k + |t|] == t && IsBlank(s[..k]) && IsBlank(s[k + |t|..])
    requires t == [] || (!IsWhitespace(t[0]) && !IsWhitespace(t[|t| - 1]))
    ensures Trim(w) == t
  {
    PaddedStretch(pre, s, post, w, k, k + |t|);
    TrimUnique(w, t, |pre| + k);
  }

  /** A stretch with only whitespace around it keeps that property inside blank padding. */
  lemma PaddedStretch(pre: string, s: string, post: string, w: string, a: int, b: int)
    requires w == pre + s + post
    requires 0 <= a <= b <= |s| && IsBlank(pre) && IsBlank(post) && IsBlank(s[..a]) && IsBlank(s[b..])
    ensures w[|pre| + a..|pre| + b] == s[a..b] && IsBlank(w[..|pre| + a]) && IsBlank(w[|pre| + b..])
  {
    assert w[|pre| + a..|pre| + b] == s[a..b];
    assert w[..|pre| + a] == pre + s[..a];
    assert w[|pre| + b..] == s[b..] + post;
  }

  /** Trimming a string that neither starts nor ends with whitespace changes nothing. */
  lemma TrimUnchanged(s: string)
    requires s == [] || (!IsWhitespace(s[0]) && !IsWhitespace(s[|s| - 1]))
    ensures Trim(s) == s
  {
  }

  /** ASCII case folding of one character (JS `toLowerCase` on the Basic Latin letters). */
  function Lower(c: char): (r: char)
    ensures IsAsciiUpper(c) ==> IsAsciiLower(r) && r as int == c as int + 32
    ensures !IsAsciiUpper(c) ==> r == c
  {
    if IsAsciiUpper(c) then (c as int + 32) as char else c
  }

  /** `s.toLowerCase()`, restricted to ASCII letters. */
  function ToLower(s: string): (r: string)
    ensures |r| == |s|
    ensures forall i :: 0 <= i < |s| ==> r[i] == Lower(s[i])
  {
    seq(|s|, i requires 0 <= i < |s| => Lower(s[i]))
  }

  /** `k` occurs in `s` starting at position `i`. */
  predicate ContainsAt(s: string, k: string, i: int)
  {
    0 <= i && i + |k| <= |s| && s[i..i + |k|] == k
  }

  /** `s.includes(k)`. */
  predicate Contains(s: string, k: string)
  {
    exists i | 0 <= i <= |s| - |k| :: ContainsAt(s, k, i)
  }

  /** Each character of an occurrence lines up with the searched string. */
  lemma ContainsAtChar(s: string, k: string, i: int, j: int)
    requires ContainsAt(s, k, i) && 0 <= j < |k|
    ensures s[i + j] == k[j]
  {
    assert s[i..i + |k|][j] == k[j];
  }

  /** Every string includes the empty string. */
  lemma ContainsEmpty(s: string)
    ensures Contains(s, "")
  {
    assert ContainsAt(s, "", 0);
  }

  /** An occurrence survives text added on either side. */
  lemma ContainsInContext(pre: string, s: string, post: string, k: string)
    requires Contains(s, k)
    ensures Contains(pre + s + post, k)
  {
    var i :| 0 <= i <= |s| - |k| && ContainsAt(s, k, i);
    var t := pre + s + post;
    assert t[|pre| + i..|pre| + i + |k|] == s[i..i + |k|];
    assert ContainsAt(t, k, |pre| + i);
  }

  /** A whitespace-only string includes no string that has a non-whitespace character. */
  lemma BlankContainsNoWord(s: string, k: string, j: int)
    requires IsBlank(s) && 0 <= j < |k| && !IsWhitespace(k[j])
    ensures !Contains(s, k)
  {
    if Contains(s, k) {
      var i :| 0 <= i <= |s| - |k| && ContainsAt(s, k, i);
      ContainsAtChar(s, k, i, j);
      assert false;
    }
  }

  /** The first position of `c` in `s`, or -1 (`s.indexOf(c)`). */
  function IndexOf(s: string, c: char): (i: int)
    ensures -1 <= i < |s|
    ensures i >= 0 ==> s[i] == c && forall j :: 0 <= j < i ==> s[j] != c
    ensures i == -1 <==> c !in s
  {
    if |s| == 0 then -1
    else if s[0] == c then 0
    else
      var i := IndexOf(s[1..], c);
      assert c in s[1..] ==> c in s;
      assert c in s && s[0] != c ==> c in s[1..];
      if i < 0 then -1 else i + 1
  }

  /** `s.split(sep)` for a one-character separator: the pieces between separators, in order. */
  function Split(s: string, sep: char): (parts: seq<string>)
    ensures |parts| >= 1
    ensures forall k :: 0 <= k < |parts| ==> sep !in parts[k]
    decreases |s|
  {
    var i := IndexOf(s, sep);
    if i < 0 then [s]
    else
      var head := s[..i];
      assert forall j :: 0 <= j < |head| ==> head[j] == s[j];
      var rest := Split(s[i + 1..], sep);
      assert forall k :: 1 <= k <= |rest| ==> ([head] + rest)[k] == rest[k - 1];
      [head] + rest
  }

  /** `parts.join(sep)`. */
  function Join(parts: seq<string>, sep: char): string
  {
    if |parts| == 0 then ""
    else if |parts| == 1 then parts[0]
    else parts[0] + [sep] + Join(parts[1..], sep)
  }

  lemma JoinCons(a: string, rest: seq<string>, sep: char)
    requires |rest| >= 1
    ensures Join([a] + rest, sep) == a + [sep] + Join(rest, sep)
  {
    assert ([a] + rest)[1..] == rest;
  }

  lemma SplitAt(s: string, sep: char, i: int)
    requires i == IndexOf(s, sep) && i >= 0
    ensures Split(s, sep) == [s[..i]] + Split(s[i + 1..], sep)
  {
  }

  /** Splitting loses nothing: joining the pieces with the separator gives back the string. */
  lemma {:induction false} JoinSplit(s: string, sep: char)
    ensures Join(Split(s, sep), sep) == s
    decreases |s|
  {
    var i := IndexOf(s, sep);
    if i >= 0 {
      var tail := s[i + 1..];
      calc {
        Join(Split(s, sep), sep);
      == { SplitAt(s, sep, i); }
        Join([s[..i]] + Split(tail, sep), sep);
      == { JoinCons(s[..i], Split(tail, sep), sep); }
        s[..i] + [sep] + Join(Split(tail, sep), sep);
      == { JoinSplit(tail, sep); }
        s[..i] + [sep] + tail;
      == { assert s == s[..i] + [s[i]] + s[i + 1..]; }
        s;
      }
    } else {
      assert Split(s, sep) == [s];
    }
  }
  /** The decimal digit character for `d`. */
  function DigitChar(d: nat): (c: char)
    requires d < 10
    ensures IsDigit(c) && c as int - '0' as int == d
  {
    ('0' as int + d) as char
  }

  /** `n.toString()` for a non-negative integer: its decimal digits, without leading zeros. */
  function NatToString(n: nat): (s: string)
    ensures 1 <= |s|
    ensures forall i :: 0 <= i < |s| ==> IsDigit(s[i])
    ensures |s| > 1 ==> s[0] != '0'
    decreases n
  {
    if n < 10 then [DigitChar(n)] else NatToString(n / 10) + [DigitChar(n % 10)]
  }

  /** `n.toString()` for any integer. */
  function IntToString(n: int): (s: string)
    ensures n >= 0 ==> s == NatToString(n)
    ensures n < 0 ==> s == "-" + NatToString(-n)
  {
    if n < 0 then "-" + NatToString(-n) else NatToString(n)
  }

  /** The value of a string of decimal digits (used to read a rendering back). */
  function ParseNat(s: string): nat
    requires forall i :: 0 <= i < |s| ==> IsDigit(s[i])
  {
    if s == [] then 0
    else
      assert IsDigit(s[|s| - 1]);
      ParseNat(s[..|s| - 1]) * 10 + (s[|s| - 1] as int - '0' as int)
  }

  /** Reading back the decimal rendering of `n` gives `n`. */
  lemma {:induction false} ParseNatToString(n: nat)
    ensures ParseNat(NatToString(n)) == n
    decreases n
  {
    if n >= 10 {
      var s := NatToString(n);
      ParseNatToString(n / 10);
      assert s[..|s| - 1] == NatToString(n / 10);
    }
  }
}
