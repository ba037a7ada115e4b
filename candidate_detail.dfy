/**
 * The interviewer's detail panel: the answered questions of the selected candidate, their average
 * score, and the colour bands that grade a score and a question's difficulty.
 */
module CandidateDetail {
  import opened Wrappers
  import opened CandidatesSlice
  import AiMock

  // ---------------------------------------------------------------------------------------------
  // Answered questions

  /** `questions.filter(q => q.answer)`: the questions with a non-empty answer. */
  function CompletedQuestions(qs: seq<Question>): (r: seq<Question>)
    ensures |r| <= |qs|
    ensures forall q :: q in r <==> q in qs && HasAnswer(q)
  {
    if qs == [] then []
    else
      assert qs == [qs[0]] + qs[1..];
      (if HasAnswer(qs[0]) then [qs[0]] else []) + CompletedQuestions(qs[1..])
  }

  /** The filter keeps the original order: it distributes over concatenation. */
  lemma {:induction false} CompletedAppend(a: seq<Question>, b: seq<Question>)
    ensures CompletedQuestions(a + b) == CompletedQuestions(a) + CompletedQuestions(b)
  {
    if a != [] {
      var head := if HasAnswer(a[0]) then [a[0]] else [];
      assert (a + b)[0] == a[0];
      assert (a + b)[1..] == a[1..] + b;
      CompletedAppend(a[1..], b);
      calc {
        CompletedQuestions(a + b);
        head + CompletedQuestions(a[1..] + b);
        head + (CompletedQuestions(a[1..]) + CompletedQuestions(b));
        (head + CompletedQuestions(a[1..])) + CompletedQuestions(b);
      }
    } else {
      assert a + b == b;
    }
  }

  /** Nothing is dropped exactly when every question is answered, and then nothing changes. */
  lemma {:induction false} CompletedAll(qs: seq<Question>)
    ensures |CompletedQuestions(qs)| == |qs| <==> forall i :: 0 <= i < |qs| ==> HasAnswer(qs[i])
    ensures (forall i :: 0 <= i < |qs| ==> HasAnswer(qs[i])) ==> CompletedQuestions(qs) == qs
  {
    if qs != [] {
      CompletedAll(qs[1..]);
      assert forall i :: 1 <= i < |qs| ==> qs[i] == qs[1..][i - 1];
      if (forall i :: 0 <= i < |qs| ==> HasAnswer(qs[i])) {
        assert forall i :: 0 <= i < |qs[1..]| ==> HasAnswer(qs[1..][i]) by {
          forall i | 0 <= i < |qs[1..]| ensures HasAnswer(qs[1..][i]) {
            assert qs[1..][i] == qs[i + 1];
          }
        }
        assert qs == [qs[0]] + qs[1..];
      }
    }
  }

  // ---------------------------------------------------------------------------------------------
  // Average score

  /** Every present score lies within the 0 to 10 scale. */
  predicate ScoresInRange(qs: seq<Question>)
  {
    forall i :: 0 <= i < |qs| ==> qs[i].score.None? || 0.0 <= qs[i].score.value <= 10.0
  }

  /**
   * `averageScore`: the sum of the answered questions' scores (a missing one counting as 0)
   * divided by their number, and 0 when none is answered.
   */
  function AverageScore(qs: seq<Question>): (r: real)
    ensures r == AiMock.Mean(CompletedQuestions(qs)).GetOr(0.0)
  {
    var done := CompletedQuestions(qs);
    if |done| > 0 then AiMock.TotalScore(done) / |done| as real else 0.0
  }

  lemma {:induction false} TotalScoreBounds(qs: seq<Question>)
    requires ScoresInRange(qs)
    ensures 0.0 <= AiMock.TotalScore(qs) <= 10.0 * |qs| as real
  {
    if qs != [] {
      assert ScoresInRange(qs[1..]) by {
        forall i | 0 <= i < |qs[1..]| ensures qs[1..][i].score.None? || 0.0 <= qs[1..][i].score.value <= 10.0 {
          assert qs[1..][i] == qs[i + 1];
        }
      }
      TotalScoreBounds(qs[1..]);
    }
  }

  lemma CompletedInRange(qs: seq<Question>)
    requires ScoresInRange(qs)
    ensures ScoresInRange(CompletedQuestions(qs))
  {
    var done := CompletedQuestions(qs);
    forall i | 0 <= i < |done| ensures done[i].score.None? || 0.0 <= done[i].score.value <= 10.0 {
      assert done[i] in qs;
    }
  }

  lemma QuotientBounds(t: real, n: real)
    requires n > 0.0 && 0.0 <= t <= 10.0 * n
    ensures 0.0 <= t / n <= 10.0
  {
    var q := t / n;
    assert q * n == t;
  }

  /** With every score on the 0 to 10 scale, so is the average. */
  lemma AverageInRange(qs: seq<Question>)
    requires ScoresInRange(qs)
    ensures 0.0 <= AverageScore(qs) <= 10.0
  {
    var done := CompletedQuestions(qs);
    if done != [] {
      CompletedInRange(qs);
      TotalScoreBounds(done);
      QuotientBounds(AiMock.TotalScore(done), |done| as real);
    }
  }

  /**
   * Once every question is answered the panel's average is the mean of all scores, the value the
   * final score rounds to the nearest tenth.
   */
  lemma AverageOfFinishedInterview(qs: seq<Question>)
    requires |qs| > 0 && forall i :: 0 <= i < |qs| ==> HasAnswer(qs[i])
    ensures AiMock.Mean(qs) == Some(AverageScore(qs))
    ensures AverageScore(qs) - 0.05 < AiMock.FinalScore(qs) <= AverageScore(qs) + 0.05
  {
    CompletedAll(qs);
  }

  // ---------------------------------------------------------------------------------------------
  // Colour bands

  /** The four grades a score is shown in, worst first. */
  datatype Band = Red | Amber | Blue | Green

  function Rank(b: Band): nat
  {
    match b
    case Red => 0
    case Amber => 1
    case Blue => 2
    case Green => 3
  }

  /** Thresholds 8, 6 and 4: green, blue, amber, else red. */
  function ScoreBand(score: real): (b: Band)
    ensures b == Green <==> score >= 8.0
    ensures b == Blue <==> 6.0 <= score < 8.0
    ensures b == Amber <==> 4.0 <= score < 6.0
    ensures b == Red <==> score < 4.0
  {
    if score >= 8.0 then Green
    else if score >= 6.0 then Blue
    else if score >= 4.0 then Amber
    else Red
  }

  /** A higher score never gets a worse band. */
  lemma BandMonotone(s: real, t: real)
    requires s <= t
    ensures Rank(ScoreBand(s)) <= Rank(ScoreBand(t))
  {
  }

  /** The detail panel's classes for a band. */
  function DetailBandClasses(b: Band): string
  {
    match b
    case Green => "text-green-600 bg-green-50"
    case Blue => "text-blue-600 bg-blue-50"
    case Amber => "text-amber-600 bg-amber-50"
    case Red => "text-red-600 bg-red-50"
  }

  /** `getScoreColor` of the detail panel. */
  function ScoreColor(score: real): string
  {
    DetailBandClasses(ScoreBand(score))
  }

  /** Two scores get the same colour exactly when they fall in the same band. */
  lemma ScoreColorByBand(s: real, t: real)
    ensures ScoreColor(s) == ScoreColor(t) <==> ScoreBand(s) == ScoreBand(t)
  {
    var a, b := ScoreBand(s), ScoreBand(t);
    if a != b {
      var x, y := DetailBandClasses(a), DetailBandClasses(b);
      if |x| == |y| {
        assert x[5] != y[5];
      }
    }
  }

  /** The text a question's difficulty carries. */
  function DifficultyName(d: Difficulty): string
  {
    match d
    case Easy => "easy"
    case Medium => "medium"
    case Hard => "hard"
  }

  const OtherDifficultyColor := "bg-gray-100 text-gray-800"

  /** `getDifficultyColor`: one colour per difficulty, grey for any other text. */
  function DifficultyColor(name: string): (c: string)
    ensures c == OtherDifficultyColor <==> forall d :: name != DifficultyName(d)
  {
    if name == "easy" then assert name == DifficultyName(Easy); "bg-green-100 text-green-800"
    else if name == "medium" then assert name == DifficultyName(Medium); "bg-amber-100 text-amber-800"
    else if name == "hard" then assert name == DifficultyName(Hard); "bg-red-100 text-red-800"
    else OtherDifficultyColor
  }

  /** The three difficulties are told apart by their colours. */
  lemma DifficultyColorsDistinct(d: Difficulty, e: Difficulty)
    ensures DifficultyColor(DifficultyName(d)) == DifficultyColor(DifficultyName(e)) <==> d == e
  {
    var x, y := DifficultyColor(DifficultyName(d)), DifficultyColor(DifficultyName(e));
    if d != e && |x| == |y| {
      assert x[3] != y[3];
    }
  }
}
