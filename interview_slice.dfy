/**
 * The interview session slice: the state of the interviewee's session and its ten reducers.
 * Each reducer is stated as a function from the old state to the new one, and `InterviewStore`
 * holds the state in mutable fields whose methods perform exactly that step in place.
 */
module InterviewSlice {
  import opened Wrappers

  /** A resume field the intake can ask for. */
  datatype Field = Name | Email | Phone

  datatype InterviewState = InterviewState(
    currentCandidateId: Option<string>,
    currentQuestionIndex: int,
    isInterviewActive: bool,
    timerStarted: bool,
    timeRemaining: int,
    showWelcomeBack: bool,
    missingFields: seq<Field>,
    isCollectingInfo: bool)

  const Initial := InterviewState(None, 0, false, false, 0, false, [], false)

  /** The intake fields and the welcome-back flag agree. */
  predicate SameIntake(s: InterviewState, t: InterviewState)
  {
    s.showWelcomeBack == t.showWelcomeBack && s.missingFields == t.missingFields
  }

  /** `setCurrentCandidate`: only the current candidate changes. */
  function AfterSetCurrentCandidate(s: InterviewState, id: string): (r: InterviewState)
    ensures r.currentCandidateId == Some(id)
    ensures r == s.(currentCandidateId := r.currentCandidateId)
  {
    s.(currentCandidateId := Some(id))
  }

  /** `startInterview`: active, back at question 0, no longer collecting; the timer flag is kept. */
  function AfterStartInterview(s: InterviewState): (r: InterviewState)
    ensures r.isInterviewActive && r.currentQuestionIndex == 0 && !r.isCollectingInfo
    ensures r.timerStarted == s.timerStarted && r.timeRemaining == s.timeRemaining
    ensures r.currentCandidateId == s.currentCandidateId && SameIntake(r, s)
  {
    s.(isInterviewActive := true, currentQuestionIndex := 0, isCollectingInfo := false)
  }

  /** `nextQuestion`: the index goes up by one, without an upper bound, and the timer is stopped. */
  function AfterNextQuestion(s: InterviewState): (r: InterviewState)
    ensures r.currentQuestionIndex == s.currentQuestionIndex + 1 && !r.timerStarted
    ensures r == s.(currentQuestionIndex := r.currentQuestionIndex, timerStarted := false)
  {
    s.(currentQuestionIndex := s.currentQuestionIndex + 1, timerStarted := false)
  }

  /** `startTimer(n)`: the timer runs from `n`. */
  function AfterStartTimer(s: InterviewState, n: int): (r: InterviewState)
    ensures r.timerStarted && r.timeRemaining == n
    ensures r == s.(timerStarted := true, timeRemaining := r.timeRemaining)
  {
    s.(timerStarted := true, timeRemaining := n)
  }

  /** `updateTimer(n)`: only the remaining time changes. */
  function AfterUpdateTimer(s: InterviewState, n: int): (r: InterviewState)
    ensures r.timeRemaining == n
    ensures r == s.(timeRemaining := r.timeRemaining)
  {
    s.(timeRemaining := n)
  }

  /**
   * `completeInterview`: inactive, index 0, no current candidate, timer stopped; the intake
   * fields, the collecting flag and the remaining time are left as they were.
   */
  function AfterCompleteInterview(s: InterviewState): (r: InterviewState)
    ensures !r.isInterviewActive && r.currentQuestionIndex == 0 && r.currentCandidateId.None? && !r.timerStarted
    ensures SameIntake(r, s) && r.isCollectingInfo == s.isCollectingInfo && r.timeRemaining == s.timeRemaining
  {
    s.(isInterviewActive := false, currentQuestionIndex := 0, currentCandidateId := None, timerStarted := false)
  }

  /** `setWelcomeBack`: only the welcome-back flag changes. */
  function AfterSetWelcomeBack(s: InterviewState, b: bool): (r: InterviewState)
    ensures r.showWelcomeBack == b
    ensures r == s.(showWelcomeBack := b)
  {
    s.(showWelcomeBack := b)
  }

  /** `setMissingFields`: only the list of missing fields changes. */
  function AfterSetMissingFields(s: InterviewState, fields: seq<Field>): (r: InterviewState)
    ensures r.missingFields == fields
    ensures r == s.(missingFields := fields)
  {
    s.(missingFields := fields)
  }

  /** `setCollectingInfo`: only the collecting flag changes. */
  function AfterSetCollectingInfo(s: InterviewState, b: bool): (r: InterviewState)
    ensures r.isCollectingInfo == b
    ensures r == s.(isCollectingInfo := b)
  {
    s.(isCollectingInfo := b)
  }

  /** `resetInterview`: whatever the state, the result is the initial state. */
  function AfterResetInterview(s: InterviewState): (r: InterviewState)
    ensures r == Initial
  {
    Initial
  }

  /** `k` successive `nextQuestion` steps. */
  function Advance(s: InterviewState, k: nat): InterviewState
  {
    if k == 0 then s else AfterNextQuestion(Advance(s, k - 1))
  }

  /**
   * After `startInterview` and `k` `nextQuestion`s the index is `k`; the interview is still
   * active, and after at least one step the timer flag is clear.
   */
  lemma {:induction false} StartThenAdvance(s: InterviewState, k: nat)
    ensures Advance(AfterStartInterview(s), k).currentQuestionIndex == k
    ensures Advance(AfterStartInterview(s), k).isInterviewActive
    ensures k > 0 ==> !Advance(AfterStartInterview(s), k).timerStarted
    ensures Advance(AfterStartInterview(s), k).currentCandidateId == s.currentCandidateId
  {
    if k > 0 {
      StartThenAdvance(s, k - 1);
    }
  }

  /** Completing and then starting again lands on question 0 of an active interview. */
  lemma CompleteThenRestart(s: InterviewState)
    ensures AfterStartInterview(AfterCompleteInterview(s)).currentQuestionIndex == 0
    ensures AfterStartInterview(AfterCompleteInterview(s)).isInterviewActive
    ensures AfterStartInterview(AfterCompleteInterview(s)).currentCandidateId.None?
    ensures !AfterStartInterview(AfterCompleteInterview(s)).timerStarted
  {
  }

  /** The interview slice held in mutable fields, updated in place by its reducers. */
  class InterviewStore {
    var currentCandidateId: Option<string>
    var currentQuestionIndex: int
    var isInterviewActive: bool
    var timerStarted: bool
    var timeRemaining: int
    var showWelcomeBack: bool
    var missingFields: seq<Field>
    var isCollectingInfo: bool

    /** The current state as a value. */
    function View(): InterviewState
      reads this
    {
      InterviewState(currentCandidateId, currentQuestionIndex, isInterviewActive, timerStarted,
                     timeRemaining, showWelcomeBack, missingFields, isCollectingInfo)
    }

    /** Fill every field from `s`. */
    method Load(s: InterviewState)
      modifies this
      ensures View() == s
    {
      currentCandidateId := s.currentCandidateId;
      currentQuestionIndex := s.currentQuestionIndex;
      isInterviewActive := s.isInterviewActive;
      timerStarted := s.timerStarted;
      timeRemaining := s.timeRemaining;
      showWelcomeBack := s.showWelcomeBack;
      missingFields := s.missingFields;
      isCollectingInfo := s.isCollectingInfo;
    }

    constructor ()
      ensures View() == Initial
    {
      currentCandidateId := None;
      currentQuestionIndex := 0;
      isInterviewActive := false;
      timerStarted := false;
      timeRemaining := 0;
      showWelcomeBack := false;
      missingFields := [];
      isCollectingInfo := false;
    }

    method SetCurrentCandidate(id: string)
      modifies this
      ensures View() == AfterSetCurrentCandidate(old(View()), id)
    {
      currentCandidateId := Some(id);
    }

    method StartInterview()
      modifies this
      ensures View() == AfterStartInterview(old(View()))
    {
      isInterviewActive := true;
      currentQuestionIndex := 0;
      isCollectingInfo := false;
    }

    method NextQuestion()
      modifies this
      ensures View() == AfterNextQuestion(old(View()))
    {
      currentQuestionIndex := currentQuestionIndex + 1;
      timerStarted := false;
    }

    method StartTimer(n: int)
      modifies this
      ensures View() == AfterStartTimer(old(View()), n)
    {
      timerStarted := true;
      timeRemaining := n;
    }

    method UpdateTimer(n: int)
      modifies this
      ensures View() == AfterUpdateTimer(old(View()), n)
    {
      timeRemaining := n;
    }

    method CompleteInterview()
      modifies this
      ensures View() == AfterCompleteInterview(old(View()))
    {
      isInterviewActive := false;
      currentQuestionIndex := 0;
      currentCandidateId := None;
      timerStarted := false;
    }

    method SetWelcomeBack(b: bool)
      modifies this
      ensures View() == AfterSetWelcomeBack(old(View()), b)
    {
      showWelcomeBack := b;
    }

    method SetMissingFields(fields: seq<Field>)
      modifies this
      ensures View() == AfterSetMissingFields(old(View()), fields)
    {
      missingFields := fields;
    }

    method SetCollectingInfo(b: bool)
      modifies this
      ensures View() == AfterSetCollectingInfo(old(View()), b)
    {
      isCollectingInfo := b;
    }

    method ResetInterview()
      modifies this
      ensures View() == Initial
    {
      Load(Initial);
    }
  }
}
