/**
 * The mock "AI": the six-slot question template, the answer-scoring heuristic and the summary of a
 * finished interview. Scores are exact rationals; `Math.random` is replaced by pool indices and
 * `uuidv4` by identifiers, both passed in.
 */
module AiMock {
  import opened Wrappers
  import opened Text
  import opened CandidatesSlice

  const EasyPool: seq<string> := [
    "What is the difference between var, let, and const in JavaScript?",
    "Explain what React components are and how they work.",
    "What is the purpose of the useState hook in React?",
    "What is the difference between == and === in JavaScript?",
    "What is npm and what is it used for?",
    "Explain the concept of the virtual DOM in React."
  ]

  const MediumPool: seq<string> := [
    "Explain the concept of closures in JavaScript with an example.",
    "What are React hooks and why were they introduced? Name at least 3 hooks.",
    "How does asynchronous programming work in JavaScript? Explain Promises.",
    "What is the difference between REST and GraphQL?",
    "Explain the event loop in JavaScript and how it handles asynchronous operations.",
    "What are controlled and uncontrolled components in React?"
  ]

  const HardPool: seq<string> := [
    "Design a scalable Node.js application architecture for handling 10,000+ concurrent users.",
    "Explain React's reconciliation algorithm and how it optimizes re-renders.",
    "Implement a debounce function from scratch and explain when you'd use it.",
    "How would you optimize a React application for performance? Discuss at least 5 techniques.",
    "Explain the differences between SQL and NoSQL databases and when to use each.",
    "Design a real-time chat application using WebSockets. What challenges would you face?"
  ]

  /** The question bank entry for one difficulty. */
  function Pool(d: Difficulty): (p: seq<string>)
    ensures |p| == 6
  {
    match d
    case Easy => EasyPool
    case Medium => MediumPool
    case Hard => HardPool
  }

  /** One entry of the generator's template: a difficulty and its time limit in seconds. */
  datatype Slot = Slot(difficulty: Difficulty, timeLimit: int)

  const Template: seq<Slot> := [
    Slot(Easy, 20), Slot(Easy, 20),
    Slot(Medium, 60), Slot(Medium, 60),
    Slot(Hard, 120), Slot(Hard, 120)
  ]

  /** Two easy, two medium and two hard questions, in that order, limited to 20, 60 and 120 seconds. */
  predicate StandardShape(qs: seq<Question>)
  {
    && |qs| == 6
    && qs[0].difficulty == Easy && qs[1].difficulty == Easy
    && qs[2].difficulty == Medium && qs[3].difficulty == Medium
    && qs[4].difficulty == Hard && qs[5].difficulty == Hard
    && qs[0].timeLimit == 20 && qs[1].timeLimit == 20
    && qs[2].timeLimit == 60 && qs[3].timeLimit == 60
    && qs[4].timeLimit == 120 && qs[5].timeLimit == 120
  }

  /** In the standard shape every hard question has the 120-second limit. */
  lemma HardLimit(qs: seq<Question>, i: int)
    requires StandardShape(qs) && 0 <= i < |qs| && qs[i].difficulty == Hard
    ensures qs[i].timeLimit == 120
  {
  }

  /** The unanswered question built for `slot` with the `pick`-th text of its pool. */
  function Planned(id: string, slot: Slot, pick: nat): Question
    requires pick < |Pool(slot.difficulty)|
  {
    Question(id, Pool(slot.difficulty)[pick], slot.difficulty, slot.timeLimit, None, None, None)
  }

  /** A valid pool choice for every slot of the template (what `Math.random` can produce). */
  predicate ValidPicks(picks: seq<nat>)
  {
    |picks| == |Template| && forall i :: 0 <= i < |Template| ==> picks[i] < |Pool(Template[i].difficulty)|
  }

  /**
   * `generateQuestions`: one question per template slot, the text drawn from the slot's own pool
   * at `picks[i]`, with identifier `ids[i]`.
   */
  method GenerateQuestions(ids: seq<string>, picks: seq<nat>) returns (questions: seq<Question>)
    requires |ids| == |Template| && ValidPicks(picks)
    ensures |questions| == |Template|
    ensures forall i :: 0 <= i < |Template| ==> questions[i] == Planned(ids[i], Template[i], picks[i])
    ensures StandardShape(questions)
    ensures forall i :: 0 <= i < |questions| ==>
              questions[i].question in Pool(questions[i].difficulty) && !HasAnswer(questions[i])
              && questions[i].score.None? && questions[i].timeSpent.None?
  {
    questions := [];
    for i := 0 to |Template|
      invariant |questions| == i
      invariant forall j :: 0 <= j < i ==> questions[j] == Planned(ids[j], Template[j], picks[j])
    {
      var slot := Template[i];
      var pool := Pool(slot.difficulty);
      questions := questions + [Question(ids[i], pool[picks[i]], slot.difficulty, slot.timeLimit, None, None, None)];
    }
  }

  // ---------------------------------------------------------------------------------------------
  // Scoring

  function Min(a: real, b: real): real { if a <= b then a else b }

  function Max(a: real, b: real): real { if a >= b then a else b }

  /** The length-based base score: above 200 characters 8, above 100 6, above 50 4, above 20 2, else 1. */
  function LengthTier(n: int): (r: real)
    ensures 1.0 <= r <= 8.0
    ensures r == 8.0 <==> n > 200
    ensures r == 1.0 <==> n <= 20
  {
    if n > 200 then 8.0
    else if n > 100 then 6.0
    else if n > 50 then 4.0
    else if n > 20 then 2.0
    else 1.0
  }

  /** A longer answer never gets a lower base score. */
  lemma LengthTierMonotone(m: int, n: int)
    requires m <= n
    ensures LengthTier(m) <= LengthTier(n)
  {
  }

  /** The base score depends only on the length of the trimmed answer. */
  function BaseScore(answer: string): real
  {
    LengthTier(|Trim(answer)|)
  }

  /** Whitespace around an answer does not change its base score: the length is taken after trimming. */
  lemma BasePaddingIgnored(pre: string, answer: string, post: string)
    requires IsBlank(pre) && IsBlank(post)
    ensures BaseScore(pre + answer + post) == BaseScore(answer)
  {
    TrimPadded(pre, answer, post);
  }

  /** The difficulty multiplier: 1, 1.2 and 1.5. */
  function Multiplier(d: Difficulty): (m: real)
    ensures 1.0 <= m <= 1.5
  {
    match d
    case Easy => 1.0
    case Medium => 1.2
    case Hard => 1.5
  }

  /** `max(0, 1 - timeSpent / timeLimit)`. */
  function TimeEfficiency(timeSpent: int, timeLimit: int): (e: real)
    requires timeLimit > 0
    ensures 0.0 <= e
    ensures timeSpent >= 0 ==> e <= 1.0
    ensures timeSpent >= timeLimit ==> e == 0.0
    ensures timeSpent <= timeLimit ==> e * timeLimit as real == (timeLimit - timeSpent) as real
  {
    Max(0.0, 1.0 - timeSpent as real / timeLimit as real)
  }

  /** Up to two points for answering quickly; none once the limit is used up. */
  function TimeBonus(timeSpent: int, timeLimit: int): (b: real)
    requires timeLimit > 0
    ensures 0.0 <= b
    ensures timeSpent >= 0 ==> b <= 2.0
    ensures timeSpent >= timeLimit ==> b == 0.0
    ensures timeSpent == 0 ==> b == 2.0
  {
    TimeEfficiency(timeSpent, timeLimit) * 2.0
  }

  const Keywords: seq<string> := ["react", "javascript", "node", "api", "database", "component", "function", "async", "promise"]

  predicate Distinct(ks: seq<string>)
  {
    forall i, j :: 0 <= i < j < |ks| ==> ks[i] != ks[j]
  }

  /** No keyword is listed twice. */
  lemma KeywordsDistinct()
    ensures Distinct(Keywords)
  {
  }

  /** How many of `ks` occur in `text` (the `reduce` over the keyword list). */
  function KeywordCount(text: string, ks: seq<string>): (n: nat)
    ensures n <= |ks|
  {
    if ks == [] then 0
    else (if Contains(text, ks[0]) then 1 else 0) + KeywordCount(text, ks[1..])
  }

  /** The keywords of `ks` that occur in `text`. */
  function Found(text: string, ks: seq<string>): set<string>
  {
    set k | k in ks && Contains(text, k)
  }

  /**
   * The keyword count is the number of distinct keywords occurring in the text, so a keyword
   * repeated many times in an answer counts once.
   */
  lemma {:induction false} KeywordCountIsFound(text: string, ks: seq<string>)
    requires Distinct(ks)
    ensures KeywordCount(text, ks) == |Found(text, ks)|
  {
    if ks != [] {
      var rest := ks[1..];
      assert Distinct(rest) by {
        forall i, j | 0 <= i < j < |rest| ensures rest[i] != rest[j] {
          assert rest[i] == ks[i + 1] && rest[j] == ks[j + 1];
        }
      }
      KeywordCountIsFound(text, rest);
      assert ks[0] !in rest by {
        forall i | 0 <= i < |rest| ensures rest[i] != ks[0] {
          assert rest[i] == ks[i + 1];
        }
      }
      assert ks == [ks[0]] + rest;
      if Contains(text, ks[0]) {
        assert Found(text, ks) == {ks[0]} + Found(text, rest);
      } else {
        assert Found(text, ks) == Found(text, rest);
      }
    }
  }

  /** Adding text to an answer never lowers its keyword count. */
  lemma {:induction false} KeywordCountGrows(pre: string, text: string, post: string, ks: seq<string>)
    ensures KeywordCount(text, ks) <= KeywordCount(pre + text + post, ks)
  {
    if ks != [] {
      if Contains(text, ks[0]) {
        ContainsInContext(pre, text, post, ks[0]);
      }
      KeywordCountGrows(pre, text, post, ks[1..]);
    }
  }

  /** A text holding none of the keywords has count zero. */
  lemma {:induction false} KeywordCountNone(text: string, ks: seq<string>)
    requires forall i :: 0 <= i < |ks| ==> !Contains(text, ks[i])
    ensures KeywordCount(text, ks) == 0
  {
    if ks != [] {
      assert forall i :: 0 <= i < |ks[1..]| ==> ks[1..][i] == ks[i + 1];
      KeywordCountNone(text, ks[1..]);
    }
  }

  /** Half a point per keyword found in the lower-cased answer, at most two points. */
  function KeywordBonus(answer: string): (b: real)
    ensures 0.0 <= b <= 2.0
  {
    Min(KeywordCount(ToLower(answer), Keywords) as real * 0.5, 2.0)
  }

  /** The keyword bonus is half a point per distinct keyword the lower-cased answer contains, capped at two. */
  lemma KeywordBonusByFound(answer: string)
    ensures KeywordBonus(answer) == Min(|Found(ToLower(answer), Keywords)| as real * 0.5, 2.0)
  {
    KeywordsDistinct();
    KeywordCountIsFound(ToLower(answer), Keywords);
  }

  /** `x` is a whole number of tenths. */
  predicate IsTenth(x: real)
  {
    (x * 10.0).Floor as real == x * 10.0
  }

  /** `Math.round(x * 10) / 10`: JavaScript rounds halves up, so this is `floor(10x + 1/2) / 10`. */
  function RoundTenth(x: real): (r: real)
    ensures IsTenth(r)
    ensures x - 0.05 < r <= x + 0.05
  {
    ((x * 10.0 + 0.5).Floor) as real / 10.0
  }

  /** The two properties of `RoundTenth` pin its result down: it is the nearest tenth, halves going up. */
  lemma RoundTenthUnique(x: real, y: real)
    requires IsTenth(y) && x - 0.05 < y <= x + 0.05
    ensures y == RoundTenth(x)
  {
    var m := (y * 10.0).Floor;
    assert m as real == y * 10.0;
    assert x * 10.0 - 0.5 < m as real <= x * 10.0 + 0.5;
    assert (x * 10.0 + 0.5).Floor == m;
  }

  /** The score before rounding: base times multiplier plus both bonuses, capped at ten. */
  function RawScore(q: Question, answer: string, timeSpent: int): (r: real)
    requires q.timeLimit > 0
    ensures 1.0 <= r <= 10.0
  {
    var base := BaseScore(answer);
    var m := Multiplier(q.difficulty);
    AtLeastOneProduct(base, m);
    Min(10.0, base * m + TimeBonus(timeSpent, q.timeLimit) + KeywordBonus(answer))
  }

  lemma AtLeastOneProduct(a: real, b: real)
    requires a >= 1.0 && b >= 1.0
    ensures a * b >= 1.0
  {
    assert a * b == (a - 1.0) * (b - 1.0) + (a - 1.0) + (b - 1.0) + 1.0;
    assert (a - 1.0) * (b - 1.0) >= 0.0;
  }

  /** `scoreAnswer`: the raw score rounded to one decimal; always between 1 and 10. */
  function ScoreAnswer(q: Question, answer: string, timeSpent: int): (r: real)
    requires q.timeLimit > 0
    ensures 1.0 <= r <= 10.0
    ensures IsTenth(r)
    ensures RawScore(q, answer, timeSpent) - 0.05 < r <= RawScore(q, answer, timeSpent) + 0.05
  {
    var raw := RawScore(q, answer, timeSpent);
    RoundTenthBounds(raw);
    RoundTenth(raw)
  }

  /** Rounding a value between 1 and 10 to a tenth stays between 1 and 10. */
  lemma RoundTenthBounds(x: real)
    requires 1.0 <= x <= 10.0
    ensures 1.0 <= RoundTenth(x) <= 10.0
  {
    assert 10.0 <= x * 10.0 + 0.5 < 101.0;
    assert 10 <= (x * 10.0 + 0.5).Floor <= 100;
  }

  /** A keyword list with one entry found in the text counts at least one. */
  lemma {:induction false} KeywordCountAtLeastOne(text: string, ks: seq<string>, i: int)
    requires 0 <= i < |ks| && Contains(text, ks[i])
    ensures KeywordCount(text, ks) >= 1
  {
    if i > 0 {
      assert ks[1..][i - 1] == ks[i];
      KeywordCountAtLeastOne(text, ks[1..], i - 1);
    }
  }

  /** Two different entries found in the text count at least two. */
  lemma {:induction false} KeywordCountAtLeastTwo(text: string, ks: seq<string>, i: int, j: int)
    requires 0 <= i < j < |ks| && Contains(text, ks[i]) && Contains(text, ks[j])
    ensures KeywordCount(text, ks) >= 2
  {
    assert ks[1..][j - 1] == ks[j];
    if i == 0 {
      KeywordCountAtLeastOne(text, ks[1..], j - 1);
    } else {
      assert ks[1..][i - 1] == ks[i];
      KeywordCountAtLeastTwo(text, ks[1..], i - 1, j - 1);
    }
  }

  /**
   * A long answer naming "react" and "api", given in 5 of 20 seconds on an easy question, reaches
   * 8 + 1.5 + 1 = 10.5 and is capped at 10.
   */
  lemma CappedScenario(q: Question, answer: string)
    requires q.difficulty == Easy && q.timeLimit == 20
    requires |Trim(answer)| > 200
    requires Contains(ToLower(answer), "react") && Contains(ToLower(answer), "api")
    ensures ScoreAnswer(q, answer, 5) == 10.0
  {
    ReactApiBonus(answer);
    assert TimeBonus(5, 20) == 1.5;
    assert BaseScore(answer) == 8.0;
    assert RawScore(q, answer, 5) == 10.0;
    RoundTenthUnique(10.0, 10.0);
  }

  /** An answer naming "react" and "api" earns at least one keyword point. */
  lemma ReactApiBonus(answer: string)
    requires Contains(ToLower(answer), "react") && Contains(ToLower(answer), "api")
    ensures KeywordBonus(answer) >= 1.0
  {
    assert Keywords[0] == "react" && Keywords[3] == "api";
    KeywordCountAtLeastTwo(ToLower(answer), Keywords, 0, 3);
  }

  /** A blank answer gets the minimum base score and no keyword bonus. */
  lemma BlankAnswerScore(q: Question, answer: string, timeSpent: int)
    requires q.difficulty == Hard && q.timeLimit == 120 && timeSpent >= 120
    requires IsBlank(answer)
    ensures ScoreAnswer(q, answer, timeSpent) == 1.5
  {
    var text := ToLower(answer);
    assert IsBlank(text);
    forall i | 0 <= i < |Keywords| ensures !Contains(text, Keywords[i]) {
      BlankContainsNoWord(text, Keywords[i], 0);
    }
    KeywordCountNone(text, Keywords);
    assert RawScore(q, answer, timeSpent) == 1.5;
    RoundTenthUnique(1.5, 1.5);
  }

  // ---------------------------------------------------------------------------------------------
  // Summary

  /** `q.score || 0`: a missing score counts as zero. */
  function QuestionScore(q: Question): real
  {
    q.score.GetOr(0.0)
  }

  /** The sum of the question scores, missing ones counted as zero. */
  function TotalScore(qs: seq<Question>): real
  {
    if qs == [] then 0.0 else QuestionScore(qs[0]) + TotalScore(qs[1..])
  }

  lemma {:induction false} TotalScoreAppend(a: seq<Question>, b: seq<Question>)
    ensures TotalScore(a + b) == TotalScore(a) + TotalScore(b)
  {
    if a != [] {
      assert (a + b)[0] == a[0];
      assert (a + b)[1..] == a[1..] + b;
      TotalScoreAppend(a[1..], b);
    } else {
      assert a + b == b;
    }
  }

  /** `questions.filter(q => q.difficulty === d)`. */
  function OfDifficulty(qs: seq<Question>, d: Difficulty): (r: seq<Question>)
    ensures |r| <= |qs|
    ensures forall i :: 0 <= i < |r| ==> r[i].difficulty == d
  {
    if qs == [] then []
    else (if qs[0].difficulty == d then [qs[0]] else []) + OfDifficulty(qs[1..], d)
  }

  /** Every score is counted in exactly one difficulty group. */
  lemma {:induction false} TotalScoreByDifficulty(qs: seq<Question>)
    ensures TotalScore(qs) == TotalScore(OfDifficulty(qs, Easy)) + TotalScore(OfDifficulty(qs, Medium))
                              + TotalScore(OfDifficulty(qs, Hard))
  {
    if qs != [] {
      TotalScoreByDifficulty(qs[1..]);
      OfDifficultyStep(qs, Easy);
      OfDifficultyStep(qs, Medium);
      OfDifficultyStep(qs, Hard);
    }
  }

  /** Filtering one more question adds its score exactly when it has the difficulty. */
  lemma OfDifficultyStep(qs: seq<Question>, d: Difficulty)
    requires qs != []
    ensures TotalScore(OfDifficulty(qs, d))
            == (if qs[0].difficulty == d then QuestionScore(qs[0]) else 0.0) + TotalScore(OfDifficulty(qs[1..], d))
  {
    var head: seq<Question> := if qs[0].difficulty == d then [qs[0]] else [];
    assert OfDifficulty(qs, d) == head + OfDifficulty(qs[1..], d);
    TotalScoreAppend(head, OfDifficulty(qs[1..], d));
    if head != [] {
      assert head[1..] == [];
    }
  }

  /** The mean of the scores; `None` stands for the NaN that an empty group divides into. */
  function Mean(qs: seq<Question>): (m: Option<real>)
    ensures m.None? <==> qs == []
  {
    if qs == [] then None else Some(TotalScore(qs) / |qs| as real)
  }

  datatype Performance = Excellent | Good | Fair | NeedsImprovement

  /** The performance band of an average, with inclusive thresholds 8, 6 and 4. */
  function PerformanceLevel(average: real): (p: Performance)
    ensures p == Excellent <==> average >= 8.0
    ensures p == Good <==> 6.0 <= average < 8.0
    ensures p == Fair <==> 4.0 <= average < 6.0
    ensures p == NeedsImprovement <==> average < 4.0
  {
    if average >= 8.0 then Excellent
    else if average >= 6.0 then Good
    else if average >= 4.0 then Fair
    else NeedsImprovement
  }

  function PerformanceName(p: Performance): string
  {
    match p
    case Excellent => "Excellent"
    case Good => "Good"
    case Fair => "Fair"
    case NeedsImprovement => "Needs Improvement"
  }

  function Recommendation(p: Performance): string
  {
    match p
    case Excellent => "Strong candidate with comprehensive technical knowledge. Highly recommended for senior positions."
    case Good => "Solid technical foundation with room for growth. Suitable for mid-level positions."
    case Fair => "Basic understanding demonstrated. May be suitable for junior positions with mentoring."
    case NeedsImprovement => "Limited technical knowledge shown. Additional training and experience recommended."
  }

  /** The three-way adjective choice per difficulty group. */
  datatype Standing = Strong | Middling | Weak

  /** Strict thresholds: above 6, above 4, otherwise (and for NaN, which fails every comparison). */
  function StandingOf(average: Option<real>): (s: Standing)
    ensures s == Strong <==> average.Some? && average.value > 6.0
    ensures s == Middling <==> average.Some? && 4.0 < average.value <= 6.0
    ensures s == Weak <==> average.None? || average.value <= 4.0
  {
    if average.Some? && average.value > 6.0 then Strong
    else if average.Some? && average.value > 4.0 then Middling
    else Weak
  }

  function FoundationalWord(s: Standing): string
  {
    match s
    case Strong => "strong"
    case Middling => "adequate"
    case Weak => "weak"
  }

  function IntermediateWord(s: Standing): string
  {
    match s
    case Strong => "good"
    case Middling => "fair"
    case Weak => "limited"
  }

  function AdvancedWord(s: Standing): string
  {
    match s
    case Strong => "impressive"
    case Middling => "developing"
    case Weak => "minimal"
  }

  /** `x.toFixed(1)`: the nearest tenth, ties going to the larger, written with one decimal. */
  function Fixed1(x: Option<real>): string
  {
    if x.None? then "NaN"
    else
      var n := (x.value * 10.0 + 0.5).Floor;
      if n < 0 then "-" + NatToString(-n / 10) + "." + [DigitChar(-n % 10)]
      else NatToString(n / 10) + "." + [DigitChar(n % 10)]
  }

  datatype Summary = Summary(score: real, level: Performance, easy: Standing, medium: Standing, hard: Standing, text: string)

  /** The summary paragraph, after `trim()` of the template literal. */
  function SummaryText(average: real, easyAvg: Option<real>, mediumAvg: Option<real>, hardAvg: Option<real>): string
  {
    var level := PerformanceLevel(average);
    "Overall Performance: " + PerformanceName(level) + " (" + Fixed1(Some(average)) + "/10)\n\n"
    + "Breakdown:\n"
    + "\U{2022} Easy Questions: " + Fixed1(easyAvg) + "/10\n"
    + "\U{2022} Medium Questions: " + Fixed1(mediumAvg) + "/10\n"
    + "\U{2022} Hard Questions: " + Fixed1(hardAvg) + "/10\n\n"
    + Recommendation(level) + "\n\n"
    + "The candidate showed " + FoundationalWord(StandingOf(easyAvg)) + " foundational knowledge, "
    + IntermediateWord(StandingOf(mediumAvg)) + " intermediate skills, and "
    + AdvancedWord(StandingOf(hardAvg)) + " advanced problem-solving abilities."
  }

  /** The summary's score: the mean of the scores rounded to a tenth. */
  function FinalScore(qs: seq<Question>): (r: real)
    requires |qs| > 0
    ensures IsTenth(r)
    ensures Mean(qs).Some? && Mean(qs).value - 0.05 < r <= Mean(qs).value + 0.05
  {
    RoundTenth(TotalScore(qs) / |qs| as real)
  }

  /**
   * `generateSummary`: the score is the mean rounded to a tenth; the band is chosen from the
   * unrounded mean, the adjectives from the per-difficulty means.
   */
  function GenerateSummary(qs: seq<Question>): (s: Summary)
    requires |qs| > 0
    ensures s.score == FinalScore(qs)
    ensures IsTenth(s.score)
    ensures Mean(qs).Some? && Mean(qs).value - 0.05 < s.score <= Mean(qs).value + 0.05
    ensures s.level == PerformanceLevel(Mean(qs).value)
    ensures s.easy == StandingOf(Mean(OfDifficulty(qs, Easy)))
    ensures s.medium == StandingOf(Mean(OfDifficulty(qs, Medium)))
    ensures s.hard == StandingOf(Mean(OfDifficulty(qs, Hard)))
  {
    var average := TotalScore(qs) / |qs| as real;
    var easyAvg := Mean(OfDifficulty(qs, Easy));
    var mediumAvg := Mean(OfDifficulty(qs, Medium));
    var hardAvg := Mean(OfDifficulty(qs, Hard));
    Summary(FinalScore(qs), PerformanceLevel(average), StandingOf(easyAvg), StandingOf(mediumAvg),
            StandingOf(hardAvg), SummaryText(average, easyAvg, mediumAvg, hardAvg))
  }

  /** A question carrying only a score (used to state examples). */
  function Scored(s: real, d: Difficulty): Question
  {
    Question("", "", d, 1, Some("x"), Some(s), Some(0))
  }

  /**
   * Because the band uses the unrounded mean, a reported score of 8.0 can carry the band "Good":
   * five eights and a 7.7 average 7.95, which rounds to 8.0.
   */
  lemma RoundedEightCanBeGood()
    ensures var qs := [Scored(8.0, Easy), Scored(8.0, Easy), Scored(8.0, Medium),
                       Scored(8.0, Medium), Scored(8.0, Hard), Scored(7.7, Hard)];
            GenerateSummary(qs).score == 8.0 && GenerateSummary(qs).level == Good
  {
    var qs := [Scored(8.0, Easy), Scored(8.0, Easy), Scored(8.0, Medium),
               Scored(8.0, Medium), Scored(8.0, Hard), Scored(7.7, Hard)];
    assert TotalScore(qs) == 47.7;
    RoundTenthUnique(7.95, 8.0);
  }

  /** A group mean of exactly 6 is not "above 6": it gets the middle adjective. */
  lemma MeanOfSixIsMiddling()
    ensures StandingOf(Some(6.0)) == Middling
    ensures [FoundationalWord(Middling), IntermediateWord(Middling), AdvancedWord(Middling)]
            == ["adequate", "fair", "developing"]
  {
  }
}
