/**
 * The decisions the chat panel takes: when a typed answer is submitted, what is submitted when the
 * timer runs out, how the answered question is written back into the candidate's list, when the
 * timer starts, and how an answer is routed to the session.
 */
module ChatInterface {
  import opened Wrappers
  import opened Text
  import opened CandidatesSlice
  import opened AiMock

  /** What is submitted in place of an answer when time runs out on an empty draft. */
  const TimeoutMarker: string := "No answer provided (time expired)"

  /** `handleSubmit`: the trimmed draft is submitted when it is not blank and an answer is awaited. */
  function SubmittedAnswer(input: string, waiting: bool): (r: Option<string>)
    ensures r.Some? <==> waiting && !IsBlank(input)
    ensures r.Some? ==> r.value == Trim(input) && r.value != []
  {
    if waiting && Trim(input) != [] then Some(Trim(input)) else None
  }

  /**
   * `handleTimeUp`: while an answer is awaited, a non-blank draft is submitted trimmed and
   * otherwise the marker is; when no answer is awaited nothing is submitted.
   */
  function TimeUpAnswer(input: string, waiting: bool): (r: Option<string>)
    ensures !waiting ==> r.None?
    ensures waiting && !IsBlank(input) ==> r == Some(Trim(input))
    ensures waiting && IsBlank(input) ==> r == Some(TimeoutMarker)
  {
    if waiting && Trim(input) != [] then Some(Trim(input))
    else if waiting then Some(TimeoutMarker)
    else None
  }

  /** Whenever an answer is awaited, running out of time submits something non-empty. */
  lemma TimeUpAlwaysAnswers(input: string)
    ensures TimeUpAnswer(input, true).Some? && TimeUpAnswer(input, true).value != []
  {
  }

  /** Where the time-up answer agrees with a submit, the same text is sent. */
  lemma TimeUpExtendsSubmit(input: string, waiting: bool)
    requires SubmittedAnswer(input, waiting).Some?
    ensures TimeUpAnswer(input, waiting) == SubmittedAnswer(input, waiting)
  {
  }

  /** `Math.floor((now - start) / 1000)`: whole seconds elapsed, never negative going forward. */
  function ElapsedSeconds(startMs: int, nowMs: int): (t: int)
    ensures t * 1000 <= nowMs - startMs < t * 1000 + 1000
    ensures startMs <= nowMs ==> t >= 0
  {
    (nowMs - startMs) / 1000
  }

  /** `{ ...currentQuestion, answer, score, timeSpent }`. */
  function Answered(q: Question, answer: string, timeSpent: int): (r: Question)
    requires q.timeLimit > 0
    ensures r.id == q.id && r.question == q.question && r.difficulty == q.difficulty && r.timeLimit == q.timeLimit
    ensures r.answer == Some(answer) && r.timeSpent == Some(timeSpent)
    ensures r.score.Some? && 1.0 <= r.score.value <= 10.0
    ensures r.score == Some(ScoreAnswer(q, answer, timeSpent))
  {
    q.(answer := Some(answer), score := Some(ScoreAnswer(q, answer, timeSpent)), timeSpent := Some(timeSpent))
  }

  /** The question list after `handleAnswer`: only the current slot is replaced, by its answered form. */
  function RecordAnswer(qs: seq<Question>, index: int, answer: string, timeSpent: int): (r: seq<Question>)
    requires 0 <= index < |qs| && qs[index].timeLimit > 0
    ensures |r| == |qs|
    ensures r[index] == Answered(qs[index], answer, timeSpent)
    ensures forall i :: 0 <= i < |qs| && i != index ==> r[i] == qs[i]
    ensures forall i :: 0 <= i < |qs| ==> r[i].timeLimit == qs[i].timeLimit && r[i].difficulty == qs[i].difficulty
  {
    qs[index := Answered(qs[index], answer, timeSpent)]
  }

  /** A non-empty answer recorded in a slot counts as answered there. */
  lemma RecordedIsAnswered(qs: seq<Question>, index: int, answer: string, timeSpent: int)
    requires 0 <= index < |qs| && qs[index].timeLimit > 0 && answer != []
    ensures HasAnswer(RecordAnswer(qs, index, answer, timeSpent)[index])
  {
  }

  /** The effect at lines 49-54: the timer is started only for an awaited answer to a present question. */
  predicate TimerShouldStart(waiting: bool, question: Option<Question>, timerStarted: bool)
  {
    waiting && question.Some? && !timerStarted
  }

  /** How `handleAnswer` passes a submitted text on. */
  datatype Route =
    | Dropped           // returns early: nothing is recorded or forwarded
    | Forwarded         // handed to the session without scoring
    | ScoredAndForwarded

  /** `handleAnswer` as written: without a candidate, a question and a start time it does nothing. */
  function RouteAsWritten(hasCandidate: bool, hasQuestion: bool, hasStart: bool): (r: Route)
    ensures r == ScoredAndForwarded <==> hasCandidate && hasQuestion && hasStart
    ensures r != Forwarded
  {
    if hasCandidate && hasQuestion && hasStart then ScoredAndForwarded else Dropped
  }

  /**
   * The intended routing: an intake reply, given while no candidate exists yet, is still handed to
   * the session (which files it under the missing field); everything else is routed as written.
   */
  function RouteAnswer(hasCandidate: bool, hasQuestion: bool, hasStart: bool, collecting: bool): (r: Route)
    ensures r == ScoredAndForwarded <==> hasCandidate && hasQuestion && hasStart
    ensures r == Forwarded <==> collecting && !(hasCandidate && hasQuestion && hasStart)
  {
    if hasCandidate && hasQuestion && hasStart then ScoredAndForwarded
    else if collecting then Forwarded
    else Dropped
  }

  /**
   * As written, a reply typed during intake is lost: there is no current candidate while the
   * missing fields are collected, so the early return fires and the reply never reaches the intake.
   */
  lemma IntakeReplyDroppedAsWritten(cs: seq<Candidate>, hasQuestion: bool, hasStart: bool)
    ensures RouteAsWritten(Find(cs, None).Some?, hasQuestion, hasStart) == Dropped
    ensures RouteAnswer(Find(cs, None).Some?, hasQuestion, hasStart, true) == Forwarded
  {
  }

  /** The intended routing differs from the written one only for intake replies. */
  lemma RoutesAgreeOutsideIntake(hasCandidate: bool, hasQuestion: bool, hasStart: bool)
    ensures RouteAnswer(hasCandidate, hasQuestion, hasStart, false) == RouteAsWritten(hasCandidate, hasQuestion, hasStart)
  {
  }

  // ---------------------------------------------------------------------------------------------
  // The marker's score

  /** A string lacking one character of `k` does not include `k`. */
  lemma MissingCharExcludes(s: string, k: string, j: int)
    requires 0 <= j < |k| && forall i :: 0 <= i < |s| ==> s[i] != k[j]
    ensures !Contains(s, k)
  {
    if Contains(s, k) {
      var i :| 0 <= i <= |s| - |k| && ContainsAt(s, k, i);
      ContainsAtChar(s, k, i, j);
    }
  }

  /** A string lacking two adjacent characters of `k` does not include `k`. */
  lemma MissingPairExcludes(s: string, k: string, j: int)
    requires 0 <= j < |k| - 1
    requires forall i :: 0 <= i < |s| - 1 ==> !(s[i] == k[j] && s[i + 1] == k[j + 1])
    ensures !Contains(s, k)
  {
    if Contains(s, k) {
      var i :| 0 <= i <= |s| - |k| && ContainsAt(s, k, i);
      ContainsAtChar(s, k, i, j);
      ContainsAtChar(s, k, i, j + 1);
    }
  }

  const LoweredMarker: string := "no answer provided (time expired)"

  lemma LoweredMarkerIs()
    ensures ToLower(TimeoutMarker) == LoweredMarker
  {
    assert forall i :: 0 <= i < |TimeoutMarker| ==> ToLower(TimeoutMarker)[i] == LoweredMarker[i];
  }

  /** The lowered marker has no 'c' and no 'b'. */
  lemma MarkerLacksChars()
    ensures forall i :: 0 <= i < |LoweredMarker| ==> LoweredMarker[i] != 'c' && LoweredMarker[i] != 'b'
  {
  }

  /** The lowered marker has none of the pairs "od", "ap" and "om". */
  lemma MarkerLacksPairs()
    ensures forall i :: 0 <= i < |LoweredMarker| - 1 ==> !(LoweredMarker[i] == 'o' && LoweredMarker[i + 1] == 'd')
    ensures forall i :: 0 <= i < |LoweredMarker| - 1 ==> !(LoweredMarker[i] == 'a' && LoweredMarker[i + 1] == 'p')
    ensures forall i :: 0 <= i < |LoweredMarker| - 1 ==> !(LoweredMarker[i] == 'o' && LoweredMarker[i + 1] == 'm')
  {
  }

  /** None of the nine keywords occurs in the lowered marker. */
  lemma MarkerHasNoKeyword()
    ensures KeywordCount(ToLower(TimeoutMarker), Keywords) == 0
  {
    var s := LoweredMarker;
    LoweredMarkerIs();
    MarkerLacksChars();
    MarkerLacksPairs();
    forall i | 0 <= i < |Keywords| ensures !Contains(s, Keywords[i]) {
      if i == 0 { MissingCharExcludes(s, "react", 3); }
      else if i == 1 { MissingCharExcludes(s, "javascript", 5); }
      else if i == 2 { MissingPairExcludes(s, "node", 1); }
      else if i == 3 { MissingPairExcludes(s, "api", 0); }
      else if i == 4 { MissingCharExcludes(s, "database", 4); }
      else if i == 5 { MissingCharExcludes(s, "component", 0); }
      else if i == 6 { MissingCharExcludes(s, "function", 3); }
      else if i == 7 { MissingCharExcludes(s, "async", 4); }
      else { MissingPairExcludes(s, "promise", 2); }
    }
    KeywordCountNone(s, Keywords);
  }

  /** Trimming leaves the marker as it is. */
  lemma MarkerIsTrimmed()
    ensures Trim(TimeoutMarker) == TimeoutMarker && |TimeoutMarker| == 33
  {
    TrimUnchanged(TimeoutMarker);
  }

  /** A trimmed keyword-free answer of 21 to 50 characters on a hard question past its limit scores 3.0. */
  lemma SecondTierHardScore(q: Question, answer: string, timeSpent: int)
    requires q.difficulty == Hard && q.timeLimit == 120 && timeSpent >= 120
    requires 20 < |Trim(answer)| <= 50 && KeywordCount(ToLower(answer), Keywords) == 0
    ensures ScoreAnswer(q, answer, timeSpent) == 3.0
  {
    assert BaseScore(answer) == 2.0;
    assert TimeBonus(timeSpent, q.timeLimit) == 0.0;
    assert KeywordBonus(answer) == 0.0;
    assert RawScore(q, answer, timeSpent) == 3.0;
    RoundTenthUnique(3.0, 3.0);
  }

  /**
   * A hard question left unanswered until its time ran out scores 3.0: the 33-character marker
   * earns the second length tier, times 1.5, with neither a time nor a keyword bonus.
   */
  lemma TimedOutMarkerScore(q: Question, timeSpent: int)
    requires q.difficulty == Hard && q.timeLimit == 120 && timeSpent >= 120
    ensures ScoreAnswer(q, TimeoutMarker, timeSpent) == 3.0
  {
    MarkerIsTrimmed();
    MarkerHasNoKeyword();
    SecondTierHardScore(q, TimeoutMarker, timeSpent);
  }
}
