/**
 * The interviewee's session: collecting the contact fields the resume lacked, creating the
 * candidate, asking the six questions in turn, recording answers (typed or timed out) and
 * completing the interview with its summary.
 *
 * The whole session (the interview slice, the candidate list, the resume data, the chat's draft
 * and start time, the countdown) is captured by `SessionView`; every event is a function from
 * one view to the next, and `Session` performs each event in place on the stores.
 */
module IntervieweeTab {
  import opened Wrappers
  import opened Text
  import opened CandidatesSlice
  import opened InterviewSlice
  import opened AiMock
  import opened ChatInterface
  import opened Timer
  import opened ResumeParser

  // ---------------------------------------------------------------------------------------------
  // Resume data and the intake of missing fields

  function Get(d: ResumeData, f: Field): Option<string>
  {
    match f
    case Name => d.name
    case Email => d.email
    case Phone => d.phone
  }

  /** The field is truthy: present and not empty. */
  predicate Filled(d: ResumeData, f: Field)
  {
    Get(d, f).Some? && Get(d, f).value != []
  }

  /** `{ ...resumeData, [field]: v }`. */
  function Set(d: ResumeData, f: Field, v: string): (r: ResumeData)
    ensures Get(r, f) == Some(v) && r.text == d.text
    ensures forall g :: g != f ==> Get(r, g) == Get(d, g)
  {
    match f
    case Name => d.(name := Some(v))
    case Email => d.(email := Some(v))
    case Phone => d.(phone := Some(v))
  }

  /** The order in which the fields are checked and asked for. */
  function Rank(f: Field): nat
  {
    match f
    case Name => 0
    case Email => 1
    case Phone => 2
  }

  /** The missing-field list built on upload: exactly the unfilled fields, in the order name, email, phone. */
  function MissingFields(d: ResumeData): (m: seq<Field>)
    ensures forall f :: f in m <==> !Filled(d, f)
    ensures forall i, j :: 0 <= i < j < |m| ==> Rank(m[i]) < Rank(m[j])
  {
    (if Filled(d, Name) then [] else [Name])
    + (if Filled(d, Email) then [] else [Email])
    + (if Filled(d, Phone) then [] else [Phone])
  }

  predicate DistinctFields(fs: seq<Field>)
  {
    forall i, j :: 0 <= i < j < |fs| ==> fs[i] != fs[j]
  }

  /** `missingFields.findIndex(field => !resumeData[field])`: the first listed field still empty. */
  function CurrentMissingIndex(fields: seq<Field>, d: ResumeData): (i: int)
    ensures -1 <= i < |fields|
    ensures i >= 0 ==> !Filled(d, fields[i]) && forall j :: 0 <= j < i ==> Filled(d, fields[j])
    ensures i == -1 <==> forall j :: 0 <= j < |fields| ==> Filled(d, fields[j])
  {
    if |fields| == 0 then -1
    else if !Filled(d, fields[0]) then 0
    else
      var i := CurrentMissingIndex(fields[1..], d);
      if i < 0 then -1 else i + 1
  }

  /** The listed fields of `fs` that are still empty, in order. */
  function Unfilled(fs: seq<Field>, d: ResumeData): (r: seq<Field>)
    ensures |r| <= |fs|
    ensures forall f :: f in r <==> f in fs && !Filled(d, f)
  {
    if fs == [] then []
    else (if Filled(d, fs[0]) then [] else [fs[0]]) + Unfilled(fs[1..], d)
  }

  /** The fields listed after position `i` that are still empty after the reply. */
  function RemainingFields(fields: seq<Field>, i: int, d: ResumeData): (r: seq<Field>)
    requires 0 <= i < |fields|
    ensures forall f :: f in r <==> f in fields[i + 1..] && !Filled(d, f)
  {
    Unfilled(fields[i + 1..], d)
  }

  lemma {:induction false} UnfilledKeepsAll(fs: seq<Field>, d: ResumeData)
    requires forall j :: 0 <= j < |fs| ==> !Filled(d, fs[j])
    ensures Unfilled(fs, d) == fs
  {
    if fs != [] {
      assert forall j :: 0 <= j < |fs[1..]| ==> fs[1..][j] == fs[j + 1];
      UnfilledKeepsAll(fs[1..], d);
      assert fs == [fs[0]] + fs[1..];
    }
  }

  /** Exactly the first `k` listed fields are filled. */
  predicate Prefilled(fields: seq<Field>, d: ResumeData, k: int)
  {
    forall j :: 0 <= j < |fields| ==> (Filled(d, fields[j]) <==> j < k)
  }

  /** Every field that is not listed is filled. */
  predicate OthersFilled(fields: seq<Field>, d: ResumeData)
  {
    forall f :: f !in fields ==> Filled(d, f)
  }

  /** Right after upload the list is duplicate-free, no listed field is filled and the others are. */
  lemma IntakeStart(d: ResumeData)
    ensures DistinctFields(MissingFields(d))
    ensures Prefilled(MissingFields(d), d, 0)
    ensures OthersFilled(MissingFields(d), d)
  {
    var m := MissingFields(d);
    forall j | 0 <= j < |m| ensures !Filled(d, m[j]) {
      assert m[j] in m;
    }
  }

  /**
   * The `k`-th non-empty reply fills the `k`-th listed field and no other, and leaves exactly the
   * fields after it to ask for.
   */
  lemma IntakeStep(fields: seq<Field>, d: ResumeData, k: int, reply: string)
    requires DistinctFields(fields) && 0 <= k < |fields| && Prefilled(fields, d, k) && reply != []
    ensures CurrentMissingIndex(fields, d) == k
    ensures Prefilled(fields, Set(d, fields[k], reply), k + 1)
    ensures OthersFilled(fields, d) ==> OthersFilled(fields, Set(d, fields[k], reply))
    ensures RemainingFields(fields, k, Set(d, fields[k], reply)) == fields[k + 1..]
  {
    var i := CurrentMissingIndex(fields, d);
    assert !Filled(d, fields[k]);
    assert i == k;
    var d2 := Set(d, fields[k], reply);
    forall j | 0 <= j < |fields| ensures Filled(d2, fields[j]) <==> j < k + 1 {
      if j != k {
        assert fields[j] != fields[k];
      }
    }
    var tail := fields[k + 1..];
    assert forall j :: 0 <= j < |tail| ==> tail[j] == fields[k + 1 + j];
    UnfilledKeepsAll(tail, d2);
  }

  /** Once every listed field is filled and the others were already, nothing is missing. */
  lemma IntakeDone(fields: seq<Field>, d: ResumeData)
    requires Prefilled(fields, d, |fields|) && OthersFilled(fields, d)
    ensures MissingFields(d) == []
  {
    forall f ensures Filled(d, f) {
      if f in fields {
        var j :| 0 <= j < |fields| && fields[j] == f;
      }
    }
  }

  // ---------------------------------------------------------------------------------------------
  // Creating a candidate

  /**
   * What a new candidate is created from: the `uuidv4` id, the question list `generateQuestions`
   * drew, and the creation time.
   */
  datatype NewCandidate = NewCandidate(id: string, questions: seq<Question>, createdAt: int)

  /** The drawn list has the standard shape, as every list `generateQuestions` returns does. */
  predicate ValidNew(nc: NewCandidate)
  {
    StandardShape(nc.questions)
  }

  /**
   * Drawing the questions for a new candidate: the list `generateQuestions` builds for these
   * question ids and pool picks, unanswered, in the standard shape.
   */
  method DrawCandidate(id: string, questionIds: seq<string>, picks: seq<nat>, createdAt: int) returns (nc: NewCandidate)
    requires |questionIds| == |Template| && ValidPicks(picks)
    ensures ValidNew(nc) && nc.id == id && nc.createdAt == createdAt && |nc.questions| == |Template|
    ensures forall i :: 0 <= i < |Template| ==> nc.questions[i] == Planned(questionIds[i], Template[i], picks[i])
    ensures forall i :: 0 <= i < |Template| ==> !HasAnswer(nc.questions[i]) && nc.questions[i].score.None?
  {
    var questions := GenerateQuestions(questionIds, picks);
    nc := NewCandidate(id, questions, createdAt);
  }

  /** The record `createCandidateAndStartInterview` adds: in progress, score 0, no summary yet. */
  function NewRecord(d: ResumeData, nc: NewCandidate): (c: Candidate)
    requires ValidNew(nc)
    ensures c.id == nc.id && c.resumeText == d.text && c.createdAt == nc.createdAt
    ensures c.status == InProgress && c.finalScore == 0.0 && c.summary == [] && c.completedAt.None?
    ensures c.questions == nc.questions
    ensures MissingFields(d) == [] ==>
              c.name == d.name.value && c.email == d.email.value && c.phone == d.phone.value
              && c.name != [] && c.email != [] && c.phone != []
  {
    assert MissingFields(d) == [] ==> Filled(d, Name) && Filled(d, Email) && Filled(d, Phone);
    Candidate(nc.id, d.name.GetOr([]), d.email.GetOr([]), d.phone.GetOr([]), d.text,
              nc.questions, 0.0, [], InProgress, nc.createdAt, None)
  }

  // ---------------------------------------------------------------------------------------------
  // The session

  /**
   * Everything the interviewee's events read or change: the interview slice, the candidate list
   * and selection, the resume data, whether an answer is awaited, the chat's draft and start time
   * (milliseconds), and the countdown's total and remaining seconds.
   */
  datatype SessionView = SessionView(
    interview: InterviewState,
    candidates: seq<Candidate>,
    selected: Option<string>,
    resumeData: Option<ResumeData>,
    waiting: bool,
    input: string,
    startTime: Option<int>,
    timerTotal: int,
    timerRemaining: int,
    summarize: seq<Question> -> string)

  /**
   * What every event keeps: every stored candidate has the standard six questions; while fields
   * are being collected there is resume data and no current candidate; before any resume there is
   * neither a current candidate nor an intake.
   */
  predicate SessionOk(v: SessionView)
  {
    && (forall i :: 0 <= i < |v.candidates| ==> StandardShape(v.candidates[i].questions))
    && (v.interview.isCollectingInfo ==> v.resumeData.Some? && v.interview.currentCandidateId.None?)
    && (v.resumeData.None? ==> v.interview.currentCandidateId.None? && !v.interview.isCollectingInfo)
  }

  /** The paragraph `generateSummary` writes, which the application files with a completed candidate. */
  function MockSummary(qs: seq<Question>): string
  {
    if |qs| > 0 then GenerateSummary(qs).text else []
  }

  function InitialView(summarize: seq<Question> -> string): SessionView
  {
    SessionView(Initial, [], None, None, false, [], None, 0, 0, summarize)
  }

  lemma InitialViewOk(summarize: seq<Question> -> string)
    ensures SessionOk(InitialView(summarize))
  {
  }

  /** The candidate the session points at, looked up in the store. */
  function CurrentCandidate(v: SessionView): (c: Option<Candidate>)
    ensures c.Some? ==> v.interview.currentCandidateId.Some?
    ensures c.Some? ==> var k := FindIndex(v.candidates, v.interview.currentCandidateId.value);
                        0 <= k < |v.candidates| && c.value == v.candidates[k]
                        && c.value.id == v.interview.currentCandidateId.value
  {
    Find(v.candidates, v.interview.currentCandidateId)
  }

  /** `candidate?.questions[currentQuestionIndex]`: undefined without a candidate or out of range. */
  function CurrentQuestion(v: SessionView): (q: Option<Question>)
    ensures q.Some? <==> CurrentCandidate(v).Some?
                         && 0 <= v.interview.currentQuestionIndex < |CurrentCandidate(v).value.questions|
    ensures q.Some? ==> q.value == CurrentCandidate(v).value.questions[v.interview.currentQuestionIndex]
    ensures q.Some? && SessionOk(v) ==> q.value.timeLimit > 0
  {
    var c := CurrentCandidate(v);
    if c.Some? && 0 <= v.interview.currentQuestionIndex < |c.value.questions| then
      assert SessionOk(v) ==> StandardShape(c.value.questions) by {
        if SessionOk(v) {
          var k := FindIndex(v.candidates, v.interview.currentCandidateId.value);
          assert StandardShape(v.candidates[k].questions);
        }
      }
      Some(c.value.questions[v.interview.currentQuestionIndex])
    else None
  }

  /** The render condition of the countdown (ChatInterface.tsx:143). */
  predicate TimerShown(v: SessionView)
  {
    v.waiting && CurrentQuestion(v).Some? && v.interview.timerStarted
  }

  /** A merge that keeps the question list keeps every stored candidate's shape. */
  lemma UpdatedKeepsShape(cs: seq<Candidate>, id: string, u: CandidateUpdate)
    requires forall i :: 0 <= i < |cs| ==> StandardShape(cs[i].questions)
    requires u.questions.None? || StandardShape(u.questions.value)
    ensures forall i :: 0 <= i < |cs| ==> StandardShape(Updated(cs, id, u)[i].questions)
  {
  }

  /** The update `completeInterviewFlow` applies: final score, summary, status and completion time. */
  function CompletionUpdate(c: Candidate, summary: string, now: int): (u: CandidateUpdate)
    requires |c.questions| > 0
    ensures u.questions.None? && u.id.None?
    ensures u.finalScore == Some(FinalScore(c.questions)) && u.summary == Some(summary)
    ensures u.status == Some(Completed) && u.completedAt == Some(now)
    ensures forall d :: Merge(d, u) == d.(finalScore := FinalScore(c.questions), summary := summary,
                                           status := Completed, completedAt := Some(now))
  {
    NoUpdates.(finalScore := Some(FinalScore(c.questions)), summary := Some(summary), status := Some(Completed),
               completedAt := Some(now))
  }

  /**
   * `completeInterviewFlow`: without a current candidate nothing happens; otherwise that
   * candidate is marked completed with the summary's score, the session is closed and no answer
   * is awaited any more.
   */
  function CompleteFlow(v: SessionView, now: int): (r: SessionView)
    requires SessionOk(v)
    ensures SessionOk(r)
    ensures CurrentCandidate(v).None? ==> r == v
  {
    var c := CurrentCandidate(v);
    if c.None? then v
    else
      var k := FindIndex(v.candidates, v.interview.currentCandidateId.value);
      assert StandardShape(v.candidates[k].questions);
      var u := CompletionUpdate(c.value, v.summarize(c.value.questions), now);
      UpdatedKeepsShape(v.candidates, c.value.id, u);
      v.(candidates := Updated(v.candidates, c.value.id, u), interview := AfterCompleteInterview(v.interview),
         waiting := false)
  }

  /** `askNextQuestion`: past the last question the interview completes; otherwise an answer is awaited. */
  function AskNext(v: SessionView, questions: seq<Question>, index: int, now: int): (r: SessionView)
    requires SessionOk(v)
    ensures SessionOk(r)
  {
    if index >= |questions| then CompleteFlow(v, now) else v.(waiting := true)
  }

  /**
   * `createCandidateAndStartInterview` followed by `askNextQuestion(questions, 0)`: the new record
   * is appended, becomes current, the interview starts at question 0 and its answer is awaited.
   */
  function StartFor(v: SessionView, d: ResumeData, nc: NewCandidate, now: int): (r: SessionView)
    requires SessionOk(v) && ValidNew(nc) && v.resumeData.Some?
    ensures SessionOk(r)
  {
    var c := NewRecord(d, nc);
    var v1 := v.(candidates := v.candidates + [c],
                 interview := AfterStartInterview(AfterSetCurrentCandidate(v.interview, nc.id)));
    AskNext(v1, c.questions, 0, now)
  }

  /**
   * `handleResumeUploaded`: the data is kept; with fields missing the intake starts and the first
   * one is asked for, otherwise the candidate is created straight away.
   */
  function ResumeUploaded(v: SessionView, d: ResumeData, nc: NewCandidate, now: int): (r: SessionView)
    requires SessionOk(v) && ValidNew(nc) && v.resumeData.None?
    ensures SessionOk(r)
  {
    var v1 := v.(resumeData := Some(d));
    var missing := MissingFields(d);
    if |missing| > 0 then
      v1.(interview := AfterSetCollectingInfo(AfterSetMissingFields(v.interview, missing), true), waiting := true)
    else
      StartFor(v1, d, nc, now)
  }

  /**
   * `handleMissingFieldResponse`: the reply fills the first listed field still empty; if listed
   * fields after it are still empty the next one is asked for, otherwise the intake stops and the
   * candidate is created from the completed data. With no listed field empty the reply is ignored.
   */
  function MissingFieldResponse(v: SessionView, response: string, nc: NewCandidate, now: int): (r: SessionView)
    requires SessionOk(v) && ValidNew(nc) && v.interview.isCollectingInfo
    ensures SessionOk(r)
  {
    var fields := v.interview.missingFields;
    var d := v.resumeData.value;
    var i := CurrentMissingIndex(fields, d);
    if i == -1 then v
    else
      var d2 := Set(d, fields[i], response);
      var v1 := v.(resumeData := Some(d2));
      if |RemainingFields(fields, i, d2)| > 0 then v1.(waiting := true)
      else StartFor(v1.(interview := AfterSetCollectingInfo(v.interview, false)), d2, nc, now)
  }

  /**
   * `handleSendMessage`: no answer is awaited any more; an intake reply goes to the intake; an
   * answer in an active interview moves to the next question, which is asked if there is one and
   * otherwise the interview completes.
   */
  function SendMessage(v: SessionView, message: string, nc: NewCandidate, now: int): (r: SessionView)
    requires SessionOk(v) && ValidNew(nc)
    ensures SessionOk(r)
  {
    var v1 := v.(waiting := false);
    if v.interview.isCollectingInfo then MissingFieldResponse(v1, message, nc, now)
    else if v.interview.isInterviewActive && CurrentCandidate(v).Some? then
      var c := CurrentCandidate(v).value;
      var index := v.interview.currentQuestionIndex;
      var v2 := v1.(interview := AfterNextQuestion(v.interview));
      if index + 1 < |c.questions| then AskNext(v2, c.questions, index + 1, now)
      else CompleteFlow(v2, now)
    else v1
  }

  /** How an answer given in this state is routed. */
  function RouteOf(v: SessionView): Route
  {
    RouteAnswer(CurrentCandidate(v).Some?, CurrentQuestion(v).Some?, v.startTime.Some?, v.interview.isCollectingInfo)
  }

  /** The update `handleAnswer` dispatches: the new question list only. */
  function QuestionsUpdate(qs: seq<Question>): (u: CandidateUpdate)
    ensures u.questions == Some(qs) && u.id.None?
    ensures forall c :: Merge(c, u) == c.(questions := qs)
  {
    NoUpdates.(questions := Some(qs))
  }

  /**
   * `handleAnswer`, routed as intended (`RouteAnswer`): with a candidate, a question and a start
   * time the answer is scored into its slot and passed on; an intake reply is passed on unscored;
   * anything else is dropped.
   */
  function HandleAnswer(v: SessionView, answer: string, nc: NewCandidate, now: int): (r: SessionView)
    requires SessionOk(v) && ValidNew(nc)
    ensures SessionOk(r)
    ensures RouteOf(v) == Dropped ==> r == v
    ensures RouteOf(v) == Forwarded ==> r == SendMessage(v, answer, nc, now)
  {
    match RouteOf(v)
    case Dropped => v
    case Forwarded => SendMessage(v, answer, nc, now)
    case ScoredAndForwarded => ScoreAndSend(v, answer, nc, now)
  }

  /**
   * The store after the scored answer is written into the current slot: only that question of
   * the current candidate changes, and the candidate stays current.
   */
  function WithAnswer(v: SessionView, answer: string, now: int): (r: SessionView)
    requires SessionOk(v) && CurrentQuestion(v).Some? && v.startTime.Some?
    ensures SessionOk(r)
    ensures r == v.(candidates := r.candidates)
    ensures var k := FindIndex(v.candidates, v.interview.currentCandidateId.value);
            var qs := RecordAnswer(v.candidates[k].questions, v.interview.currentQuestionIndex, answer,
                                   ElapsedSeconds(v.startTime.value, now));
            && |r.candidates| == |v.candidates| && FindIndex(r.candidates, v.interview.currentCandidateId.value) == k
            && CurrentCandidate(r) == Some(r.candidates[k])
            && r.candidates[k] == v.candidates[k].(questions := qs)
            && (forall i :: 0 <= i < |v.candidates| && i != k ==> r.candidates[i] == v.candidates[i])
  {
    var id := v.interview.currentCandidateId.value;
    var c := CurrentCandidate(v).value;
    var qs := RecordAnswer(c.questions, v.interview.currentQuestionIndex, answer, ElapsedSeconds(v.startTime.value, now));
    assert StandardShape(qs);
    var u := QuestionsUpdate(qs);
    UpdatedKeepsShape(v.candidates, c.id, u);
    UpdatedKeepsIds(v.candidates, c.id, u, id);
    v.(candidates := Updated(v.candidates, c.id, u))
  }

  /** The record `WithAnswer` builds. */
  lemma WithAnswerRecord(v: SessionView, answer: string, now: int)
    requires SessionOk(v) && CurrentQuestion(v).Some? && v.startTime.Some?
    ensures var c := CurrentCandidate(v).value;
            WithAnswer(v, answer, now)
            == v.(candidates := Updated(v.candidates, c.id,
                    QuestionsUpdate(RecordAnswer(c.questions, v.interview.currentQuestionIndex, answer,
                                                 ElapsedSeconds(v.startTime.value, now)))))
  {
  }

  /** The scoring branch of `handleAnswer`: the answer goes into its slot, then on to the session. */
  function ScoreAndSend(v: SessionView, answer: string, nc: NewCandidate, now: int): (r: SessionView)
    requires SessionOk(v) && ValidNew(nc) && CurrentQuestion(v).Some? && v.startTime.Some?
    ensures SessionOk(r) && r.startTime.None?
  {
    SendMessage(WithAnswer(v, answer, now), answer, nc, now).(startTime := None)
  }

  /** `handleAnswer` exactly as written: without a candidate, a question and a start time it returns. */
  function HandleAnswerAsWritten(v: SessionView, answer: string, nc: NewCandidate, now: int): (r: SessionView)
    requires SessionOk(v) && ValidNew(nc)
    ensures SessionOk(r)
    ensures RouteAsWritten(CurrentCandidate(v).Some?, CurrentQuestion(v).Some?, v.startTime.Some?) == Dropped ==> r == v
  {
    match RouteAsWritten(CurrentCandidate(v).Some?, CurrentQuestion(v).Some?, v.startTime.Some?)
    case ScoredAndForwarded => ScoreAndSend(v, answer, nc, now)
    case _ => v
  }

  /** `handleSubmit`: a non-blank draft, while an answer is awaited, is answered trimmed and cleared. */
  function Submit(v: SessionView, nc: NewCandidate, now: int): (r: SessionView)
    requires SessionOk(v) && ValidNew(nc)
    ensures SessionOk(r)
    ensures SubmittedAnswer(v.input, v.waiting).None? ==> r == v
  {
    var a := SubmittedAnswer(v.input, v.waiting);
    if a.None? then v else HandleAnswer(v, a.value, nc, now).(input := [])
  }

  /** `handleTimeUp`: the draft, or the marker when the draft is blank, is answered. */
  function TimeUp(v: SessionView, nc: NewCandidate, now: int): (r: SessionView)
    requires SessionOk(v) && ValidNew(nc)
    ensures SessionOk(r)
    ensures !v.waiting ==> r == v
  {
    var a := TimeUpAnswer(v.input, v.waiting);
    if a.None? then v
    else if Trim(v.input) != [] then HandleAnswer(v, a.value, nc, now).(input := [])
    else HandleAnswer(v, a.value, nc, now)
  }

  /**
   * The timer-start effect: for an awaited answer to a present question whose timer has not
   * started, the slice's timer starts at the question's limit, the chat notes the start time and
   * the countdown is mounted with that limit.
   */
  function StartTimerEffect(v: SessionView, now: int): (r: SessionView)
    requires SessionOk(v)
    ensures SessionOk(r)
    ensures !TimerShouldStart(v.waiting, CurrentQuestion(v), v.interview.timerStarted) ==> r == v
  {
    var q := CurrentQuestion(v);
    if TimerShouldStart(v.waiting, q, v.interview.timerStarted) then
      v.(interview := AfterStartTimer(v.interview, q.value.timeLimit), startTime := Some(now),
         timerTotal := q.value.timeLimit, timerRemaining := q.value.timeLimit)
    else v
  }

  /**
   * One second of a shown countdown: the reported value goes to `updateTimer`; when the tick
   * fires, time is up.
   */
  function TimerTick(v: SessionView, nc: NewCandidate, now: int): (r: SessionView)
    requires SessionOk(v) && ValidNew(nc)
    ensures SessionOk(r)
    ensures !TimerShown(v) ==> r == v
  {
    if !TimerShown(v) then v
    else
      var v1 := v.(timerRemaining := NextRemaining(v.timerRemaining),
                   interview := AfterUpdateTimer(v.interview, Reported(v.timerRemaining)));
      if Fires(v.timerRemaining) then TimeUp(v1, nc, now) else v1
  }

  /** `handleSubmit` on top of `handleAnswer` as written. */
  function SubmitAsWritten(v: SessionView, nc: NewCandidate, now: int): (r: SessionView)
    requires SessionOk(v) && ValidNew(nc)
    ensures SessionOk(r)
  {
    var a := SubmittedAnswer(v.input, v.waiting);
    if a.None? then v else HandleAnswerAsWritten(v, a.value, nc, now).(input := [])
  }

  // ---------------------------------------------------------------------------------------------
  // Properties of the session

  /** Waiting for the reply that fills field number `k` of `fields` (counting from 0). */
  predicate IntakeAt(w: SessionView, fields: seq<Field>, k: int, base: seq<Candidate>)
  {
    && SessionOk(w) && w.interview.isCollectingInfo && w.interview.missingFields == fields
    && DistinctFields(fields) && 0 <= k < |fields|
    && Prefilled(fields, w.resumeData.value, k) && OthersFilled(fields, w.resumeData.value)
    && w.candidates == base && w.waiting
  }

  /**
   * The intake is over: one candidate was appended to `base`, with every contact field filled in,
   * it is current, and its first question is awaited.
   */
  predicate Started(r: SessionView, base: seq<Candidate>, nc: NewCandidate)
  {
    && !r.interview.isCollectingInfo && r.interview.isInterviewActive
    && r.interview.currentQuestionIndex == 0 && r.interview.currentCandidateId == Some(nc.id) && r.waiting
    && |r.candidates| == |base| + 1 && r.candidates[..|base|] == base
    && r.candidates[|base|].id == nc.id && r.candidates[|base|].status == InProgress
    && r.candidates[|base|].name != [] && r.candidates[|base|].email != [] && r.candidates[|base|].phone != []
  }

  /** The session after each reply of `rs` in turn. */
  function Replies(v: SessionView, rs: seq<string>, nc: NewCandidate, now: int): (r: SessionView)
    requires SessionOk(v) && ValidNew(nc)
    ensures SessionOk(r)
    decreases |rs|
  {
    if rs == [] then v else Replies(HandleAnswer(v, rs[0], nc, now), rs[1..], nc, now)
  }

  /** One non-empty reply during the intake: the next field is asked for, or the interview starts. */
  lemma IntakeReply(w: SessionView, fields: seq<Field>, k: int, base: seq<Candidate>, reply: string,
                    nc: NewCandidate, now: int)
    requires IntakeAt(w, fields, k, base) && reply != [] && ValidNew(nc)
    ensures k + 1 < |fields| ==> IntakeAt(HandleAnswer(w, reply, nc, now), fields, k + 1, base)
    ensures k + 1 == |fields| ==> Started(HandleAnswer(w, reply, nc, now), base, nc)
  {
    var d := w.resumeData.value;
    IntakeStep(fields, d, k, reply);
    assert RouteOf(w) == Forwarded;
    var d2 := Set(d, fields[k], reply);
    if k + 1 == |fields| {
      IntakeDone(fields, d2);
      var w2 := w.(waiting := false, resumeData := Some(d2), interview := AfterSetCollectingInfo(w.interview, false));
      var r := StartFor(w2, d2, nc, now);
      assert r.candidates[..|base|] == base;
    }
  }

  lemma {:induction false} IntakeReplies(w: SessionView, fields: seq<Field>, k: int, base: seq<Candidate>,
                                         rs: seq<string>, nc: NewCandidate, now: int)
    requires IntakeAt(w, fields, k, base) && ValidNew(nc) && k + |rs| <= |fields|
    requires forall i :: 0 <= i < |rs| ==> rs[i] != []
    ensures k + |rs| < |fields| ==> IntakeAt(Replies(w, rs, nc, now), fields, k + |rs|, base)
    ensures k + |rs| == |fields| ==> Started(Replies(w, rs, nc, now), base, nc)
    decreases |rs|
  {
    if rs != [] {
      IntakeReply(w, fields, k, base, rs[0], nc, now);
      var w1 := HandleAnswer(w, rs[0], nc, now);
      if k + 1 < |fields| {
        IntakeReplies(w1, fields, k + 1, base, rs[1..], nc, now);
      } else {
        assert rs[1..] == [];
      }
    }
  }

  /**
   * A resume lacking `m` contact fields takes exactly `m` non-empty replies: after fewer the intake
   * is still running and no candidate exists; after `m` the candidate, with all its contact fields
   * filled, is created and interviewed.
   */
  lemma IntakeTakesOneReplyPerField(v: SessionView, d: ResumeData, rs: seq<string>, nc: NewCandidate, now: int)
    requires SessionOk(v) && ValidNew(nc) && v.resumeData.None? && MissingFields(d) != []
    requires |rs| <= |MissingFields(d)| && forall i :: 0 <= i < |rs| ==> rs[i] != []
    ensures |rs| < |MissingFields(d)| ==>
              var r := Replies(ResumeUploaded(v, d, nc, now), rs, nc, now);
              r.interview.isCollectingInfo && r.candidates == v.candidates && r.waiting
    ensures |rs| == |MissingFields(d)| ==> Started(Replies(ResumeUploaded(v, d, nc, now), rs, nc, now), v.candidates, nc)
  {
    IntakeStart(d);
    IntakeReplies(ResumeUploaded(v, d, nc, now), MissingFields(d), 0, v.candidates, rs, nc, now);
  }

  /** A resume with name, email and phone starts the interview at once. */
  lemma CompleteResumeStartsAtOnce(v: SessionView, d: ResumeData, nc: NewCandidate, now: int)
    requires SessionOk(v) && ValidNew(nc) && v.resumeData.None? && MissingFields(d) == []
    ensures Started(ResumeUploaded(v, d, nc, now), v.candidates, nc)
  {
    var r := ResumeUploaded(v, d, nc, now);
    assert r.candidates[..|v.candidates|] == v.candidates;
  }

  /**
   * As written, a reply during the intake is lost: the answer handler returns early, so the field
   * stays empty and nothing else changes, while the intended routing fills the field.
   */
  lemma IntakeReplyLostAsWritten(w: SessionView, fields: seq<Field>, k: int, base: seq<Candidate>,
                                 reply: string, nc: NewCandidate, now: int)
    requires IntakeAt(w, fields, k, base) && reply != [] && ValidNew(nc)
    ensures HandleAnswerAsWritten(w, reply, nc, now) == w
    ensures !Filled(w.resumeData.value, fields[k])
    ensures HandleAnswer(w, reply, nc, now).resumeData.Some?
    ensures Filled(HandleAnswer(w, reply, nc, now).resumeData.value, fields[k])
  {
    IntakeReply(w, fields, k, base, reply, nc, now);
    IntakeStep(fields, w.resumeData.value, k, reply);
    var d2 := Set(w.resumeData.value, fields[k], reply);
    assert HandleAnswer(w, reply, nc, now).resumeData == Some(d2);
  }

  /** Question `index` of the stored candidate with `id`, when both exist. */
  function QuestionOf(cs: seq<Candidate>, id: string, index: int): Option<Question>
  {
    var c := Find(cs, Some(id));
    if c.Some? && 0 <= index < |c.value.questions| then Some(c.value.questions[index]) else None
  }

  /** The scoring route: the answer goes into its slot, is handed on, and the start time is cleared. */
  lemma ScoredRoute(v: SessionView, answer: string, nc: NewCandidate, now: int)
    requires SessionOk(v) && ValidNew(nc) && CurrentQuestion(v).Some? && v.startTime.Some?
    ensures HandleAnswer(v, answer, nc, now) == SendMessage(WithAnswer(v, answer, now), answer, nc, now).(startTime := None)
  {
    assert RouteOf(v) == ScoredAndForwarded;
  }

  /** A message in an active interview moves to the next question, or completes after the last. */
  lemma SendInInterview(w: SessionView, message: string, nc: NewCandidate, now: int)
    requires SessionOk(w) && ValidNew(nc) && !w.interview.isCollectingInfo && w.interview.isInterviewActive
    requires CurrentCandidate(w).Some?
    ensures var w2 := w.(waiting := false, interview := AfterNextQuestion(w.interview));
            SendMessage(w, message, nc, now) ==
              if w.interview.currentQuestionIndex + 1 < |CurrentCandidate(w).value.questions| then w2.(waiting := true)
              else CompleteFlow(w2, now)
  {
  }

  /**
   * Answering the current question of an active interview records exactly that slot, as the
   * answered form of the question (answer, score, time spent); the candidate's other questions
   * are kept.
   */
  lemma AnswerRecorded(v: SessionView, answer: string, nc: NewCandidate, now: int)
    requires SessionOk(v) && ValidNew(nc)
    requires !v.interview.isCollectingInfo && v.interview.isInterviewActive
    requires CurrentQuestion(v).Some? && v.startTime.Some?
    ensures var id := v.interview.currentCandidateId.value;
            var index := v.interview.currentQuestionIndex;
            var k := FindIndex(v.candidates, id);
            var r := HandleAnswer(v, answer, nc, now);
            && QuestionOf(r.candidates, id, index) == Some(Answered(CurrentQuestion(v).value, answer, ElapsedSeconds(v.startTime.value, now)))
            && (forall j :: 0 <= j < |Template| && j != index ==> QuestionOf(r.candidates, id, j) == QuestionOf(v.candidates, id, j))
  {
    var id := v.interview.currentCandidateId.value;
    var k := FindIndex(v.candidates, id);
    AnswerKeepsSlots(v, answer, nc, now);
    var r := HandleAnswer(v, answer, nc, now);
    var qs := RecordAnswer(v.candidates[k].questions, v.interview.currentQuestionIndex, answer,
                           ElapsedSeconds(v.startTime.value, now));
    var w := WithAnswer(v, answer, now);
    assert r.candidates[k].questions == w.candidates[k].questions == qs;
    QuestionsAt(v.candidates, id, k, v.candidates[k].questions);
    QuestionsAt(r.candidates, id, k, qs);
  }

  /** When the candidate with `id` sits at `k` with question list `qs`, `QuestionOf` reads `qs`. */
  lemma QuestionsAt(cs: seq<Candidate>, id: string, k: int, qs: seq<Question>)
    requires 0 <= k < |cs| && FindIndex(cs, id) == k && cs[k].questions == qs
    ensures forall j :: QuestionOf(cs, id, j) == if 0 <= j < |qs| then Some(qs[j]) else None
  {
  }

  /**
   * After a scored answer every other candidate is kept and the current one stays at its place
   * with the question list of `WithAnswer` (completion may change its other fields); the start
   * time is cleared.
   */
  lemma AnswerKeepsSlots(v: SessionView, answer: string, nc: NewCandidate, now: int)
    requires SessionOk(v) && ValidNew(nc)
    requires !v.interview.isCollectingInfo && v.interview.isInterviewActive
    requires CurrentQuestion(v).Some? && v.startTime.Some?
    ensures var id := v.interview.currentCandidateId.value;
            var k := FindIndex(v.candidates, id);
            var w := WithAnswer(v, answer, now);
            var r := HandleAnswer(v, answer, nc, now);
            && |r.candidates| == |v.candidates| && FindIndex(r.candidates, id) == k
            && r.candidates[k].questions == w.candidates[k].questions
            && (forall i :: 0 <= i < |v.candidates| && i != k ==> r.candidates[i] == v.candidates[i])
            && r.startTime.None?
  {
    var id := v.interview.currentCandidateId.value;
    var k := FindIndex(v.candidates, id);
    var index := v.interview.currentQuestionIndex;
    ScoredRoute(v, answer, nc, now);
    var w := WithAnswer(v, answer, now);
    SendInInterview(w, answer, nc, now);
    var w2 := w.(waiting := false, interview := AfterNextQuestion(w.interview));
    assert CurrentCandidate(w2) == CurrentCandidate(w);
    if index + 1 >= |Template| {
      CompletionMarksCandidate(w2, now);
      UpdatedKeepsIds(w2.candidates, id, CompletionUpdate(w.candidates[k], v.summarize(w.candidates[k].questions), now), id);
    }
  }

  /** An answer before the last question moves the interview on to the next one and awaits it. */
  lemma AnswerMovesOn(v: SessionView, answer: string, nc: NewCandidate, now: int)
    requires SessionOk(v) && ValidNew(nc)
    requires !v.interview.isCollectingInfo && v.interview.isInterviewActive
    requires CurrentQuestion(v).Some? && v.startTime.Some?
    requires v.interview.currentQuestionIndex + 1 < |Template|
    ensures var r := HandleAnswer(v, answer, nc, now);
            && r.interview == AfterNextQuestion(v.interview) && r.waiting
            && CurrentCandidate(r).Some? && CurrentCandidate(r).value.status == CurrentCandidate(v).value.status
  {
    ScoredRoute(v, answer, nc, now);
    var w := WithAnswer(v, answer, now);
    SendInInterview(w, answer, nc, now);
    var w2 := w.(waiting := false, interview := AfterNextQuestion(w.interview));
    assert CurrentCandidate(w2) == CurrentCandidate(w);
  }

  /**
   * The answer to the last question completes the candidate, with the final score of the summary of
   * its recorded answers, and closes the session.
   */
  lemma LastAnswerCompletes(v: SessionView, answer: string, nc: NewCandidate, now: int)
    requires SessionOk(v) && ValidNew(nc)
    requires !v.interview.isCollectingInfo && v.interview.isInterviewActive
    requires CurrentQuestion(v).Some? && v.startTime.Some?
    requires v.interview.currentQuestionIndex + 1 == |Template|
    ensures var k := FindIndex(v.candidates, v.interview.currentCandidateId.value);
            var qs := RecordAnswer(v.candidates[k].questions, v.interview.currentQuestionIndex, answer,
                                   ElapsedSeconds(v.startTime.value, now));
            var r := HandleAnswer(v, answer, nc, now);
            && |r.candidates| == |v.candidates| && r.candidates[k].questions == qs
            && r.candidates[k].status == Completed && r.candidates[k].finalScore == FinalScore(qs)
            && r.candidates[k].summary == v.summarize(qs) && r.candidates[k].completedAt == Some(now)
            && !r.interview.isInterviewActive && r.interview.currentCandidateId.None? && !r.waiting
  {
    var id := v.interview.currentCandidateId.value;
    var k := FindIndex(v.candidates, id);
    var qs := RecordAnswer(v.candidates[k].questions, v.interview.currentQuestionIndex, answer,
                           ElapsedSeconds(v.startTime.value, now));
    ScoredRoute(v, answer, nc, now);
    var w := WithAnswer(v, answer, now);
    assert w.candidates[k].questions == qs;
    SendInInterview(w, answer, nc, now);
    var w2 := w.(waiting := false, interview := AfterNextQuestion(w.interview));
    assert CurrentCandidate(w2) == CurrentCandidate(w);
    assert FindIndex(w2.candidates, id) == k;
    assert SendMessage(w, answer, nc, now) == CompleteFlow(w2, now);
    CompletionMarksCandidate(w2, now);
    var r := HandleAnswer(v, answer, nc, now);
    assert r.candidates == CompleteFlow(w2, now).candidates;
    assert r.interview == AfterCompleteInterview(w2.interview);
  }

  /**
   * When the countdown runs out on a blank draft, the marker is recorded as the answer to the
   * current question, scored like any other answer; on a hard question answered after its whole
   * limit that score is 3.0.
   */
  lemma TimeoutRecordsMarker(v: SessionView, nc: NewCandidate, now: int)
    requires SessionOk(v) && ValidNew(nc) && TimerShown(v) && Fires(v.timerRemaining) && IsBlank(v.input)
    requires !v.interview.isCollectingInfo && v.interview.isInterviewActive && v.startTime.Some?
    ensures var q := CurrentQuestion(v).value;
            var t := ElapsedSeconds(v.startTime.value, now);
            var r := TimerTick(v, nc, now);
            && QuestionOf(r.candidates, v.interview.currentCandidateId.value, v.interview.currentQuestionIndex)
                 == Some(Answered(q, TimeoutMarker, t))
            && (q.difficulty == Hard && t >= 120 ==> ScoreAnswer(q, TimeoutMarker, t) == 3.0)
  {
    var v1 := v.(timerRemaining := NextRemaining(v.timerRemaining),
                 interview := AfterUpdateTimer(v.interview, Reported(v.timerRemaining)));
    assert CurrentCandidate(v1) == CurrentCandidate(v);
    assert CurrentQuestion(v1) == CurrentQuestion(v);
    assert TimerTick(v, nc, now) == HandleAnswer(v1, TimeoutMarker, nc, now);
    AnswerRecorded(v1, TimeoutMarker, nc, now);
    var q := CurrentQuestion(v).value;
    var t := ElapsedSeconds(v.startTime.value, now);
    if q.difficulty == Hard && t >= 120 {
      CurrentHardLimit(v);
      TimedOutMarkerScore(q, t);
    }
  }

  /** A hard current question has the 120-second limit. */
  lemma CurrentHardLimit(v: SessionView)
    requires SessionOk(v) && CurrentQuestion(v).Some? && CurrentQuestion(v).value.difficulty == Hard
    ensures CurrentQuestion(v).value.timeLimit == 120
  {
    var k := FindIndex(v.candidates, v.interview.currentCandidateId.value);
    assert StandardShape(v.candidates[k].questions);
    HardLimit(v.candidates[k].questions, v.interview.currentQuestionIndex);
  }

  /** The timer-start effect acts at most once per question: running it again changes nothing. */
  lemma TimerStartsOnce(v: SessionView, now: int, later: int)
    requires SessionOk(v)
    ensures StartTimerEffect(StartTimerEffect(v, now), later) == StartTimerEffect(v, now)
  {
    var r := StartTimerEffect(v, now);
    assert CurrentCandidate(r) == CurrentCandidate(v);
  }

  /** The record `CompleteFlow` builds when there is a current candidate. */
  lemma CompleteFlowRecord(v: SessionView, now: int)
    requires SessionOk(v) && CurrentCandidate(v).Some?
    ensures |CurrentCandidate(v).value.questions| > 0
    ensures CompleteFlow(v, now)
            == v.(candidates := Updated(v.candidates, CurrentCandidate(v).value.id,
                                        CompletionUpdate(CurrentCandidate(v).value,
                                                         v.summarize(CurrentCandidate(v).value.questions), now)),
                  interview := AfterCompleteInterview(v.interview), waiting := false)
  {
  }

  /**
   * Completing marks the current candidate completed with the summary's score and the completion
   * time, keeps every other field of it and every other candidate, and closes the session.
   */
  lemma CompletionMarksCandidate(v: SessionView, now: int)
    requires SessionOk(v) && CurrentCandidate(v).Some?
    ensures var k := FindIndex(v.candidates, v.interview.currentCandidateId.value);
            var c := v.candidates[k];
            var r := CompleteFlow(v, now);
            && |r.candidates| == |v.candidates|
            && r.candidates[k] == c.(finalScore := FinalScore(c.questions), summary := v.summarize(c.questions),
                                     status := Completed, completedAt := Some(now))
            && (forall i :: 0 <= i < |v.candidates| && i != k ==> r.candidates[i] == v.candidates[i])
            && r.interview == AfterCompleteInterview(v.interview) && !r.waiting
            && r.resumeData == v.resumeData && r.startTime == v.startTime && r.input == v.input
  {
  }

  /**
   * Starting an interview appends the new record, makes it current from question 0, and awaits the
   * answer; for an id not yet stored, the current question is the first planned one.
   */
  lemma StartAppendsCandidate(v: SessionView, d: ResumeData, nc: NewCandidate, now: int)
    requires SessionOk(v) && ValidNew(nc) && v.resumeData.Some?
    ensures var r := StartFor(v, d, nc, now);
            && r.candidates == v.candidates + [NewRecord(d, nc)]
            && r.interview == AfterStartInterview(AfterSetCurrentCandidate(v.interview, nc.id))
            && r.waiting && r.resumeData == v.resumeData && r.startTime == v.startTime
    ensures FindIndex(v.candidates, nc.id) < 0 ==>
              CurrentCandidate(StartFor(v, d, nc, now)) == Some(NewRecord(d, nc))
              && CurrentQuestion(StartFor(v, d, nc, now)) == Some(nc.questions[0])
  {
    FindIndexAppend(v.candidates, NewRecord(d, nc));
  }

  // ---------------------------------------------------------------------------------------------
  // The session in place

  /** The interviewee tab with its chat panel and countdown: the stores are updated in place. */
  class Session {
    const interview: InterviewStore
    const store: CandidatesStore
    const countdown: Countdown
    const summarize: seq<Question> -> string
    var resumeData: Option<ResumeData>
    var isWaitingForAnswer: bool
    var inputValue: string
    var startTime: Option<int>

    function View(): SessionView
      reads this, interview, store, countdown
    {
      SessionView(interview.View(), store.candidates, store.selectedCandidateId, resumeData,
                  isWaitingForAnswer, inputValue, startTime, countdown.totalTime, countdown.timeRemaining, summarize)
    }

    predicate Valid()
      reads this, interview, store, countdown
    {
      SessionOk(View())
    }

    /** The tab as the application mounts it, writing summaries with the mock service. */
    constructor ()
      ensures View() == InitialView(MockSummary) && Valid()
    {
      summarize := MockSummary;
      interview := new InterviewStore();
      store := new CandidatesStore();
      countdown := new Countdown(0);
      resumeData := None;
      isWaitingForAnswer := false;
      inputValue := [];
      startTime := None;
    }

    /** Typing in the chat box. */
    method SetInput(value: string)
      modifies this
      ensures View() == old(View()).(input := value)
    {
      inputValue := value;
    }

    method CompleteInterviewFlow(now: int)
      requires Valid()
      modifies this, interview, store
      ensures View() == CompleteFlow(old(View()), now) && Valid()
    {
      ghost var v0 := View();
      var c := CurrentCandidate(View());
      if c.Some? {
        CompleteFlowRecord(v0, now);
        var u := CompletionUpdate(c.value, summarize(c.value.questions), now);
        store.UpdateCandidate(c.value.id, u);
        interview.CompleteInterview();
        isWaitingForAnswer := false;
      }
    }

    method AskNextQuestion(questions: seq<Question>, index: int, now: int)
      requires Valid()
      modifies this, interview, store
      ensures View() == AskNext(old(View()), questions, index, now) && Valid()
    {
      if index >= |questions| {
        CompleteInterviewFlow(now);
      } else {
        isWaitingForAnswer := true;
      }
    }

    method CreateCandidateAndStartInterview(d: ResumeData, nc: NewCandidate, now: int)
      requires Valid() && ValidNew(nc) && resumeData.Some?
      modifies this, interview, store
      ensures View() == StartFor(old(View()), d, nc, now) && Valid()
    {
      var c := Candidate(nc.id, d.name.GetOr([]), d.email.GetOr([]), d.phone.GetOr([]), d.text,
                         nc.questions, 0.0, [], InProgress, nc.createdAt, None);
      store.AddCandidate(c);
      interview.SetCurrentCandidate(nc.id);
      interview.StartInterview();
      AskNextQuestion(nc.questions, 0, now);
    }

    method HandleResumeUploaded(d: ResumeData, nc: NewCandidate, now: int)
      requires Valid() && ValidNew(nc) && resumeData.None?
      modifies this, interview, store
      ensures View() == ResumeUploaded(old(View()), d, nc, now) && Valid()
    {
      resumeData := Some(d);
      var missing := MissingFields(d);
      if |missing| > 0 {
        interview.SetMissingFields(missing);
        interview.SetCollectingInfo(true);
        isWaitingForAnswer := true;
      } else {
        CreateCandidateAndStartInterview(d, nc, now);
      }
    }

    method HandleMissingFieldResponse(response: string, nc: NewCandidate, now: int)
      requires Valid() && ValidNew(nc) && interview.isCollectingInfo
      modifies this, interview, store
      ensures View() == MissingFieldResponse(old(View()), response, nc, now) && Valid()
    {
      var fields := interview.missingFields;
      var d := resumeData.value;
      var i := CurrentMissingIndex(fields, d);
      if i != -1 {
        var d2 := Set(d, fields[i], response);
        resumeData := Some(d2);
        if |RemainingFields(fields, i, d2)| > 0 {
          isWaitingForAnswer := true;
        } else {
          interview.SetCollectingInfo(false);
          CreateCandidateAndStartInterview(d2, nc, now);
        }
      }
    }

    method HandleSendMessage(message: string, nc: NewCandidate, now: int)
      requires Valid() && ValidNew(nc)
      modifies this, interview, store
      ensures View() == SendMessage(old(View()), message, nc, now) && Valid()
    {
      var c := CurrentCandidate(View());
      var index := interview.currentQuestionIndex;
      isWaitingForAnswer := false;
      if interview.isCollectingInfo {
        HandleMissingFieldResponse(message, nc, now);
      } else if interview.isInterviewActive && c.Some? {
        interview.NextQuestion();
        if index + 1 < |c.value.questions| {
          AskNextQuestion(c.value.questions, index + 1, now);
        } else {
          CompleteInterviewFlow(now);
        }
      }
    }

    /** `handleAnswer`, with intake replies passed on as intended. */
    method Answer(answer: string, nc: NewCandidate, now: int)
      requires Valid() && ValidNew(nc)
      modifies this, interview, store
      ensures View() == HandleAnswer(old(View()), answer, nc, now) && Valid()
    {
      ghost var v0 := View();
      var route := RouteOf(View());
      if route == ScoredAndForwarded {
        ScoredRoute(v0, answer, nc, now);
        WithAnswerRecord(v0, answer, now);
        var c := CurrentCandidate(View()).value;
        var timeSpent := ElapsedSeconds(startTime.value, now);
        var qs := RecordAnswer(c.questions, interview.currentQuestionIndex, answer, timeSpent);
        store.UpdateCandidate(c.id, QuestionsUpdate(qs));
        assert View() == WithAnswer(v0, answer, now);
        HandleSendMessage(answer, nc, now);
        startTime := None;
      } else if route == Forwarded {
        HandleSendMessage(answer, nc, now);
      }
    }

    method HandleSubmit(nc: NewCandidate, now: int)
      requires Valid() && ValidNew(nc)
      modifies this, interview, store
      ensures View() == Submit(old(View()), nc, now) && Valid()
    {
      var a := SubmittedAnswer(inputValue, isWaitingForAnswer);
      if a.Some? {
        Answer(a.value, nc, now);
        inputValue := [];
      }
    }

    method HandleTimeUp(nc: NewCandidate, now: int)
      requires Valid() && ValidNew(nc)
      modifies this, interview, store
      ensures View() == TimeUp(old(View()), nc, now) && Valid()
    {
      var a := TimeUpAnswer(inputValue, isWaitingForAnswer);
      if a.Some? {
        if Trim(inputValue) != [] {
          Answer(a.value, nc, now);
          inputValue := [];
        } else {
          Answer(a.value, nc, now);
        }
      }
    }

    method TimerEffect(now: int)
      requires Valid()
      modifies this, interview, countdown
      ensures View() == StartTimerEffect(old(View()), now) && Valid()
    {
      var q := CurrentQuestion(View());
      if TimerShouldStart(isWaitingForAnswer, q, interview.timerStarted) {
        interview.StartTimer(q.value.timeLimit);
        startTime := Some(now);
        countdown.Mount(q.value.timeLimit);
      }
    }

    method Tick(nc: NewCandidate, now: int)
      requires Valid() && ValidNew(nc)
      modifies this, interview, store, countdown
      ensures View() == TimerTick(old(View()), nc, now) && Valid()
    {
      if TimerShown(View()) {
        var reported, timeUp := countdown.Tick();
        interview.UpdateTimer(reported);
        if timeUp {
          HandleTimeUp(nc, now);
        }
      }
    }
  }
}
