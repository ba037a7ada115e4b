/**
 * The field extraction applied to a resume's text: a name taken from the first non-blank lines,
 * and the first email address and phone number found anywhere in the text.
 *
 * The email and phone regular expressions are patterns given as predicates on strings; a match is
 * a non-empty stretch of the text the pattern accepts.
 */
module ResumeParser {
  import opened Wrappers
  import opened Text

  /** What the resume parser produced; a field the parser did not find is `None`. */
  datatype ResumeData = ResumeData(text: string, name: Option<string>, email: Option<string>, phone: Option<string>)

  // ---------------------------------------------------------------------------------------------
  // Pattern matches

  /** The pattern accepts the non-empty stretch `s[i..j]`. */
  predicate MatchAt(s: string, p: string -> bool, i: int, j: int)
  {
    0 <= i < j <= |s| && p(s[i..j])
  }

  /** `regex.test(s)`: the pattern matches somewhere in `s`. */
  predicate HasMatch(s: string, p: string -> bool)
  {
    exists i, j | 0 <= i < j <= |s| :: MatchAt(s, p, i, j)
  }

  /** The end of the longest match that starts at `i` and ends by `j`, or -1 when there is none. */
  function LongestFrom(s: string, p: string -> bool, i: int, j: int): (e: int)
    requires 0 <= i <= j <= |s|
    ensures e == -1 || (i < e <= j && MatchAt(s, p, i, e))
    ensures forall k :: (if e == -1 then i else e) < k <= j ==> !MatchAt(s, p, i, k)
    decreases j
  {
    if j == i then -1
    else if p(s[i..j]) then j
    else LongestFrom(s, p, i, j - 1)
  }

  /** A stretch of text, from `start` up to but not including `end`. */
  datatype Span = Span(start: nat, end: nat)

  /**
   * The first match at or after position `i`: it starts further left than any other match, and
   * among those starting there it is the longest.
   */
  function MatchFrom(s: string, p: string -> bool, i: nat): (m: Option<Span>)
    requires i <= |s|
    ensures m.Some? ==> i <= m.value.start && MatchAt(s, p, m.value.start, m.value.end)
    ensures m.Some? ==> forall a, b :: i <= a && MatchAt(s, p, a, b) ==>
                          m.value.start < a || (a == m.value.start && b <= m.value.end)
    ensures m.None? ==> forall a, b :: i <= a ==> !MatchAt(s, p, a, b)
    decreases |s| - i
  {
    if i == |s| then None
    else
      var e := LongestFrom(s, p, i, |s|);
      if e >= 0 then Some(Span(i, e)) else MatchFrom(s, p, i + 1)
  }

  /** `text.match(regex)?.[0] || undefined`: the first match, or `None` when there is none. */
  function FirstMatch(s: string, p: string -> bool): (r: Option<string>)
    ensures r.Some? <==> HasMatch(s, p)
    ensures r.Some? ==> r.value != [] && p(r.value)
    ensures r.Some? ==> exists i, j :: MatchAt(s, p, i, j) && r.value == s[i..j] &&
                          forall a, b :: MatchAt(s, p, a, b) ==> i < a || (a == i && b <= j)
  {
    match MatchFrom(s, p, 0)
    case Some(sp) => Some(s[sp.start..sp.end])
    case None => None
  }

  // ---------------------------------------------------------------------------------------------
  // Lines and words

  /** `ls.filter(keep)` over strings. */
  function Keep(ls: seq<string>, keep: string -> bool): (r: seq<string>)
    ensures |r| <= |ls|
  {
    if ls == [] then []
    else (if keep(ls[0]) then [ls[0]] else []) + Keep(ls[1..], keep)
  }

  /** The kept strings are exactly those that pass the test. */
  lemma {:induction false} KeepMembers(ls: seq<string>, keep: string -> bool)
    ensures forall l :: l in Keep(ls, keep) <==> l in ls && keep(l)
  {
    if ls != [] {
      KeepMembers(ls[1..], keep);
      assert ls == [ls[0]] + ls[1..];
    }
  }

  /** Filtering keeps the order: it distributes over concatenation. */
  lemma {:induction false} KeepAppend(a: seq<string>, b: seq<string>, keep: string -> bool)
    ensures Keep(a + b, keep) == Keep(a, keep) + Keep(b, keep)
  {
    if a != [] {
      var head := if keep(a[0]) then [a[0]] else [];
      assert (a + b)[0] == a[0];
      assert (a + b)[1..] == a[1..] + b;
      KeepAppend(a[1..], b, keep);
      calc {
        Keep(a + b, keep);
        head + Keep(a[1..] + b, keep);
        head + (Keep(a[1..], keep) + Keep(b, keep));
        (head + Keep(a[1..], keep)) + Keep(b, keep);
      }
    } else {
      assert a + b == b;
    }
  }

  /** `line.trim()` is truthy. */
  predicate NotBlank(line: string)
  {
    Trim(line) != []
  }

  /** `text.split('\n').filter(line => line.trim())`: the lines that are not all whitespace. */
  function NonBlankLines(text: string): (r: seq<string>)
    ensures forall l :: l in r <==> l in Split(text, '\n') && !IsBlank(l)
  {
    KeepMembers(Split(text, '\n'), NotBlank);
    Keep(Split(text, '\n'), NotBlank)
  }

  /** A whitespace-only line anywhere among the lines makes no difference to what is kept. */
  lemma BlankLineIgnored(a: seq<string>, line: string, b: seq<string>)
    requires IsBlank(line)
    ensures Keep(a + [line] + b, NotBlank) == Keep(a + b, NotBlank)
  {
    assert !NotBlank(line);
    assert Keep([line], NotBlank) == [] by {
      assert [line][1..] == [];
    }
    KeepAppend(a, [line], NotBlank);
    KeepAppend(a + [line], b, NotBlank);
    KeepAppend(a, b, NotBlank);
    assert Keep(a + [line], NotBlank) == Keep(a, NotBlank);
  }

  /** `line.split(' ').filter(w => w.length > 0)`. */
  function Words(line: string): seq<string>
  {
    Keep(Split(line, ' '), w => |w| > 0)
  }

  /** `/^[A-Z][a-z]/.test(w)`: a capital letter followed by a small one. */
  predicate Capitalized(w: string)
  {
    |w| >= 2 && IsAsciiUpper(w[0]) && IsAsciiLower(w[1])
  }

  /** Two to four words, each capitalised. */
  predicate LooksLikeName(line: string)
  {
    var ws := Words(line);
    2 <= |ws| <= 4 && forall i :: 0 <= i < |ws| ==> Capitalized(ws[i])
  }

  /** The test that sets aside headers and contact lines. */
  predicate PassesHeaderFilter(line: string, isPhone: string -> bool)
  {
    && 3 < |line| < 50
    && '@' !in line
    && !HasMatch(line, isPhone)
    && !(line != [] && IsDigit(line[0]))
    && !Contains(ToLower(line), "resume")
    && !Contains(ToLower(line), "cv")
  }

  /** A trimmed line accepted as the candidate's name. */
  predicate IsNameLine(line: string, isPhone: string -> bool)
  {
    PassesHeaderFilter(line, isPhone) && LooksLikeName(line)
  }

  // ---------------------------------------------------------------------------------------------
  // Extraction

  /** `Math.min(3, lines.length)`: how many lines are searched for the name. */
  function ScanLength(lines: seq<string>): (n: nat)
    ensures n <= 3 && n <= |lines| && (n == 3 || n == |lines|)
  {
    if |lines| < 3 then |lines| else 3
  }

  /** The position of the first string that passes `test`, or -1. */
  function FirstIndex(ls: seq<string>, test: string -> bool): (k: int)
    ensures -1 <= k < |ls|
    ensures k >= 0 ==> test(ls[k])
    ensures forall j :: 0 <= j < |ls| && (k < 0 || j < k) ==> !test(ls[j])
  {
    if ls == [] then -1
    else if test(ls[0]) then 0
    else
      var k := FirstIndex(ls[1..], test);
      assert forall j :: 1 <= j < |ls| ==> ls[j] == ls[1..][j - 1];
      if k < 0 then -1 else k + 1
  }

  /** The name-line test as a function value. */
  function NameTest(isPhone: string -> bool): string -> bool
  {
    line => IsNameLine(line, isPhone)
  }

  /**
   * The name drawn from the non-blank lines: among the first three, the first whose trimmed form
   * passes `isName`, trimmed; `None` when none of them does.
   */
  function NameFromLines(lines: seq<string>, isName: string -> bool): (r: Option<string>)
    ensures r.Some? ==>
              exists k :: 0 <= k < ScanLength(lines) && r.value == Trim(lines[k]) && isName(r.value)
                          && forall j :: 0 <= j < k ==> !isName(Trim(lines[j]))
    ensures r.None? <==> forall j :: 0 <= j < ScanLength(lines) ==> !isName(Trim(lines[j]))
  {
    var scanned := lines[..ScanLength(lines)];
    var k := FirstIndex(scanned, l => isName(Trim(l)));
    assert forall j :: 0 <= j < |scanned| ==> scanned[j] == lines[j];
    if k < 0 then None else Some(Trim(scanned[k]))
  }

  /** `parseResume`: the text together with the fields found in it. */
  function ParseResume(text: string, isEmail: string -> bool, isPhone: string -> bool): (r: ResumeData)
    ensures r.text == text
    ensures r.email.Some? <==> HasMatch(text, isEmail)
    ensures r.phone.Some? <==> HasMatch(text, isPhone)
    ensures r.name.Some? ==> IsNameLine(r.name.value, isPhone)
  {
    ResumeData(text, NameFromLines(NonBlankLines(text), NameTest(isPhone)), FirstMatch(text, isEmail), FirstMatch(text, isPhone))
  }

  /** `extractFields`: the name search over the first lines, then the first email and phone matches. */
  method ExtractFields(text: string, isEmail: string -> bool, isPhone: string -> bool)
    returns (name: Option<string>, email: Option<string>, phone: Option<string>)
    ensures ResumeData(text, name, email, phone) == ParseResume(text, isEmail, isPhone)
  {
    var lines := NonBlankLines(text);
    var found := "";
    var n := ScanLength(lines);
    var i := 0;
    while i < n
      invariant 0 <= i <= n
      invariant found == ""
      invariant forall j :: 0 <= j < i ==> !IsNameLine(Trim(lines[j]), isPhone)
    {
      var line := Trim(lines[i]);
      if IsNameLine(line, isPhone) {
        FirstQualifyingLineWins(lines, NameTest(isPhone), i);
        found := line;
        break;
      }
      assert forall j :: 0 <= j < i + 1 ==> !IsNameLine(Trim(lines[j]), isPhone) by {
        forall j | 0 <= j < i + 1 ensures !IsNameLine(Trim(lines[j]), isPhone) {
          if j == i {
            assert Trim(lines[j]) == line;
          }
        }
      }
      i := i + 1;
    }
    name := if found == "" then None else Some(found);
    email := FirstMatch(text, isEmail);
    phone := FirstMatch(text, isPhone);
  }

  // ---------------------------------------------------------------------------------------------
  // Properties of the extracted name

  /**
   * An extracted name is one of the first three non-blank lines, trimmed, of 4 to 49 characters,
   * with no '@', no phone match, no leading digit, neither "resume" nor "cv" in any case, and
   * two to four capitalised words.
   */
  lemma NameShape(lines: seq<string>, isPhone: string -> bool)
    requires NameFromLines(lines, NameTest(isPhone)).Some?
    ensures var n := NameFromLines(lines, NameTest(isPhone)).value;
      && 4 <= |n| <= 49 && '@' !in n && !HasMatch(n, isPhone) && !IsDigit(n[0])
      && !Contains(ToLower(n), "resume") && !Contains(ToLower(n), "cv")
      && 2 <= |Words(n)| <= 4 && (forall i :: 0 <= i < |Words(n)| ==> Capitalized(Words(n)[i]))
      && !IsWhitespace(n[0]) && !IsWhitespace(n[|n| - 1])
      && exists k :: 0 <= k < 3 && k < |lines| && n == Trim(lines[k])
  {
    var n := NameFromLines(lines, NameTest(isPhone)).value;
    var k :| 0 <= k < ScanLength(lines) && n == Trim(lines[k]) && NameTest(isPhone)(n);
    assert IsNameLine(n, isPhone);
  }

  /** The first line that passes the test wins, whatever the lines after it are. */
  lemma FirstQualifyingLineWins(lines: seq<string>, isName: string -> bool, k: nat)
    requires k < ScanLength(lines) && isName(Trim(lines[k]))
    requires forall j :: 0 <= j < k ==> !isName(Trim(lines[j]))
    ensures NameFromLines(lines, isName) == Some(Trim(lines[k]))
  {
  }

  /** Lines after the third non-blank one are never looked at. */
  lemma LaterLinesIgnored(lines: seq<string>, more: seq<string>, isName: string -> bool)
    requires |lines| >= 3
    ensures NameFromLines(lines + more, isName) == NameFromLines(lines, isName)
  {
    assert (lines + more)[..3] == lines[..3];
  }
}
