/**
 * The interviewer's candidate list: the search filter over name and email, the three sort orders,
 * the answered-question count and the score colour of each row.
 */
module CandidateList {
  import opened Text
  import opened CandidatesSlice
  import opened CandidateDetail

  // ---------------------------------------------------------------------------------------------
  // Search

  /** The lower-cased name or email includes the lower-cased search term. */
  predicate Matches(c: Candidate, term: string)
  {
    Contains(ToLower(c.name), ToLower(term)) || Contains(ToLower(c.email), ToLower(term))
  }

  /** `candidates.filter(...)`: the candidates matching the term, in their stored order. */
  function Filter(cs: seq<Candidate>, term: string): (r: seq<Candidate>)
    ensures |r| <= |cs|
    ensures forall c :: c in r <==> c in cs && Matches(c, term)
    ensures multiset(r) <= multiset(cs)
    ensures forall c :: multiset(r)[c] == if Matches(c, term) then multiset(cs)[c] else 0
  {
    if cs == [] then []
    else
      assert cs == [cs[0]] + cs[1..];
      (if Matches(cs[0], term) then [cs[0]] else []) + Filter(cs[1..], term)
  }

  /** An empty search box keeps every candidate. */
  lemma {:induction false} EmptyTermKeepsAll(cs: seq<Candidate>)
    ensures Filter(cs, "") == cs
  {
    if cs != [] {
      assert ToLower("") == "";
      ContainsEmpty(ToLower(cs[0].name));
      EmptyTermKeepsAll(cs[1..]);
      assert cs == [cs[0]] + cs[1..];
    }
  }

  // ---------------------------------------------------------------------------------------------
  // Sorting

  /** The `sortBy` choices of the select box. */
  datatype SortKey = ByScore | ByDate | ByName

  /** Code-point order of two strings: negative, zero or positive as `a` sorts before, with or after `b`. */
  function LexCompare(a: string, b: string): (r: int)
    ensures r == 0 <==> a == b
    ensures -1 <= r <= 1
  {
    if a == [] && b == [] then 0
    else if a == [] then -1
    else if b == [] then 1
    else if a[0] < b[0] then -1
    else if a[0] > b[0] then 1
    else
      var r := LexCompare(a[1..], b[1..]);
      assert r == 0 ==> a == [a[0]] + a[1..] && b == [b[0]] + b[1..];
      r
  }

  lemma {:induction false} LexCompareAntisymmetric(a: string, b: string)
    ensures LexCompare(a, b) == -LexCompare(b, a)
  {
    if a != [] && b != [] && a[0] == b[0] {
      LexCompareAntisymmetric(a[1..], b[1..]);
    }
  }

  lemma {:induction false} LexCompareTransitive(a: string, b: string, c: string)
    requires LexCompare(a, b) <= 0 && LexCompare(b, c) <= 0
    ensures LexCompare(a, c) <= 0
  {
    if a != [] && b != [] && c != [] && a[0] == b[0] && b[0] == c[0] {
      LexCompareTransitive(a[1..], b[1..], c[1..]);
    }
  }

  /**
   * The comparator handed to `sort`: `b.finalScore - a.finalScore`, the difference of the creation
   * times, or `a.name.localeCompare(b.name)`. Negative means `a` goes first.
   */
  function Compare(a: Candidate, b: Candidate, key: SortKey): (r: real)
    ensures key == ByScore ==> (r <= 0.0 <==> a.finalScore >= b.finalScore)
    ensures key == ByDate ==> (r <= 0.0 <==> a.createdAt >= b.createdAt)
    ensures key == ByName ==> (r <= 0.0 <==> LexCompare(a.name, b.name) <= 0)
    ensures r == 0.0 <==> match key
                           case ByScore => a.finalScore == b.finalScore
                           case ByDate => a.createdAt == b.createdAt
                           case ByName => a.name == b.name
  {
    match key
    case ByScore => b.finalScore - a.finalScore
    case ByDate => (b.createdAt - a.createdAt) as real
    case ByName => LexCompare(a.name, b.name) as real
  }

  /** Swapping the arguments negates the comparator, as `sort` expects of a consistent one. */
  lemma CompareAntisymmetric(a: Candidate, b: Candidate, key: SortKey)
    ensures Compare(a, b, key) == -Compare(b, a, key)
  {
    if key == ByName {
      LexCompareAntisymmetric(a.name, b.name);
    }
  }

  lemma CompareTransitive(a: Candidate, b: Candidate, c: Candidate, key: SortKey)
    requires Compare(a, b, key) <= 0.0 && Compare(b, c, key) <= 0.0
    ensures Compare(a, c, key) <= 0.0
  {
    if key == ByName {
      LexCompareTransitive(a.name, b.name, c.name);
    }
  }

  /** Every neighbouring pair is in comparator order. */
  predicate SortedBy(s: seq<Candidate>, key: SortKey)
  {
    forall i :: 0 <= i < |s| - 1 ==> Compare(s[i], s[i + 1], key) <= 0.0
  }

  /** `c` placed in front of the first element it does not sort after. */
  function Insert(c: Candidate, s: seq<Candidate>, key: SortKey): (r: seq<Candidate>)
    requires SortedBy(s, key)
    ensures SortedBy(r, key)
    ensures multiset(r) == multiset(s) + multiset{c}
    ensures r[0] == c || (s != [] && r[0] == s[0])
  {
    if s == [] || Compare(c, s[0], key) <= 0.0 then [c] + s
    else
      CompareAntisymmetric(c, s[0], key);
      var t := Insert(c, s[1..], key);
      assert s == [s[0]] + s[1..];
      [s[0]] + t
  }

  /** The sorted list: the candidates in comparator order, none added, lost or duplicated. */
  function SortBy(cs: seq<Candidate>, key: SortKey): (r: seq<Candidate>)
    ensures SortedBy(r, key)
    ensures multiset(r) == multiset(cs)
  {
    if cs == [] then []
    else
      assert cs == [cs[0]] + cs[1..];
      Insert(cs[0], SortBy(cs[1..], key), key)
  }

  /** Order of neighbours extends to every pair. */
  lemma {:induction false} SortedAllPairs(s: seq<Candidate>, key: SortKey)
    requires SortedBy(s, key)
    ensures forall i, j :: 0 <= i < j < |s| ==> Compare(s[i], s[j], key) <= 0.0
  {
    if |s| > 1 {
      var t := s[1..];
      assert SortedBy(t, key) by {
        forall i | 0 <= i < |t| - 1 ensures Compare(t[i], t[i + 1], key) <= 0.0 {
          assert t[i] == s[i + 1] && t[i + 1] == s[i + 2];
        }
      }
      SortedAllPairs(t, key);
      forall i, j | 0 <= i < j < |s| ensures Compare(s[i], s[j], key) <= 0.0 {
        if i == 0 && j > 1 {
          assert s[1] == t[0] && s[j] == t[j - 1];
          CompareTransitive(s[0], s[1], s[j], key);
        } else if i > 0 {
          assert s[i] == t[i - 1] && s[j] == t[j - 1];
        }
      }
    }
  }

  /** Sorting by score lists the highest final score first. */
  lemma ScoreSortedDescends(cs: seq<Candidate>)
    ensures forall i, j :: 0 <= i < j < |SortBy(cs, ByScore)| ==>
              SortBy(cs, ByScore)[i].finalScore >= SortBy(cs, ByScore)[j].finalScore
  {
    SortedAllPairs(SortBy(cs, ByScore), ByScore);
  }

  /** Sorting by date lists the newest candidate first. */
  lemma DateSortedDescends(cs: seq<Candidate>)
    ensures forall i, j :: 0 <= i < j < |SortBy(cs, ByDate)| ==>
              SortBy(cs, ByDate)[i].createdAt >= SortBy(cs, ByDate)[j].createdAt
  {
    SortedAllPairs(SortBy(cs, ByDate), ByDate);
  }

  /** Sorting by name lists the names in ascending order. */
  lemma NameSortedAscends(cs: seq<Candidate>)
    ensures forall i, j :: 0 <= i < j < |SortBy(cs, ByName)| ==>
              LexCompare(SortBy(cs, ByName)[i].name, SortBy(cs, ByName)[j].name) <= 0
  {
    SortedAllPairs(SortBy(cs, ByName), ByName);
  }

  /**
   * `filteredAndSortedCandidates`: exactly the matching candidates, each as often as it is stored,
   * in comparator order.
   */
  function Listed(cs: seq<Candidate>, term: string, key: SortKey): (r: seq<Candidate>)
    ensures SortedBy(r, key)
    ensures multiset(r) == multiset(Filter(cs, term)) && multiset(r) <= multiset(cs)
    ensures forall c :: c in r <==> c in cs && Matches(c, term)
  {
    var r := SortBy(Filter(cs, term), key);
    assert forall c :: c in r <==> c in Filter(cs, term) by {
      forall c ensures c in r <==> c in Filter(cs, term) {
        assert c in r <==> c in multiset(r);
      }
    }
    r
  }

  /** With an empty search box the list is every candidate, merely reordered. */
  lemma EmptySearchListsEveryone(cs: seq<Candidate>, key: SortKey)
    ensures multiset(Listed(cs, "", key)) == multiset(cs)
  {
    EmptyTermKeepsAll(cs);
  }

  // ---------------------------------------------------------------------------------------------
  // Row contents

  /** `questions.filter(q => q.answer).length`, shown over the number of questions. */
  function AnsweredCount(qs: seq<Question>): (n: nat)
    ensures n == |AnsweredBefore(qs, |qs|)|
    ensures n <= |qs|
    ensures n == |qs| <==> forall i :: 0 <= i < |qs| ==> HasAnswer(qs[i])
    ensures n == 0 <==> forall i :: 0 <= i < |qs| ==> !HasAnswer(qs[i])
  {
    CompletedAll(qs);
    var done := CompletedQuestions(qs);
    assert done != [] ==> done[0] in done;
    assert (exists i :: 0 <= i < |qs| && HasAnswer(qs[i])) ==> done != [] by {
      if exists i :: 0 <= i < |qs| && HasAnswer(qs[i]) {
        var i :| 0 <= i < |qs| && HasAnswer(qs[i]);
        assert qs[i] in done;
      }
    }
    AnsweredPrefix(qs, |qs|);
    assert qs[..|qs|] == qs;
    |done|
  }

  /** The positions below `k` that hold an answered question. */
  function AnsweredBefore(qs: seq<Question>, k: int): set<int>
    requires k <= |qs|
  {
    set i | 0 <= i < k && HasAnswer(qs[i])
  }

  /** The answered questions of a prefix are as many as the answered positions in it. */
  lemma {:induction false} AnsweredPrefix(qs: seq<Question>, k: int)
    requires 0 <= k <= |qs|
    ensures |CompletedQuestions(qs[..k])| == |AnsweredBefore(qs, k)|
  {
    if k == 0 {
      assert qs[..0] == [];
      assert AnsweredBefore(qs, 0) == {};
    } else {
      AnsweredPrefix(qs, k - 1);
      assert qs[..k] == qs[..k - 1] + [qs[k - 1]];
      CompletedAppend(qs[..k - 1], [qs[k - 1]]);
      CompletedSingle(qs[k - 1]);
      AnsweredBeforeStep(qs, k);
    }
  }

  lemma CompletedSingle(q: Question)
    ensures |CompletedQuestions([q])| == if HasAnswer(q) then 1 else 0
  {
    assert [q][1..] == [];
  }

  /** One more position counts once more exactly when it is answered. */
  lemma AnsweredBeforeStep(qs: seq<Question>, k: int)
    requires 0 < k <= |qs|
    ensures |AnsweredBefore(qs, k)| == |AnsweredBefore(qs, k - 1)| + if HasAnswer(qs[k - 1]) then 1 else 0
  {
    var before := AnsweredBefore(qs, k - 1);
    assert k - 1 !in before;
    if HasAnswer(qs[k - 1]) {
      assert AnsweredBefore(qs, k) == before + {k - 1};
    } else {
      assert AnsweredBefore(qs, k) == before;
    }
  }

  /** The list's classes for a band. */
  function ListBandClasses(b: Band): string
  {
    match b
    case Green => "text-green-600 bg-green-50 border-green-200"
    case Blue => "text-blue-600 bg-blue-50 border-blue-200"
    case Amber => "text-amber-600 bg-amber-50 border-amber-200"
    case Red => "text-red-600 bg-red-50 border-red-200"
  }

  /** `getScoreColor` of the list. */
  function ListScoreColor(score: real): string
  {
    ListBandClasses(ScoreBand(score))
  }

  /** Two scores get the same colour in the list exactly when they fall in the same band. */
  lemma ListScoreColorByBand(s: real, t: real)
    ensures ListScoreColor(s) == ListScoreColor(t) <==> ScoreBand(s) == ScoreBand(t)
  {
    var a, b := ScoreBand(s), ScoreBand(t);
    if a != b {
      var x, y := ListBandClasses(a), ListBandClasses(b);
      if |x| == |y| {
        assert x[5] != y[5];
      }
    }
  }
}
