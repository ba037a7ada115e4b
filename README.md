# AI interview assistant — a verified model

The application runs a timed technical interview in the browser. On the interviewee's side:

- A resume is uploaded, and its text gives up a name, an email and a phone number.
- The chat asks for any contact field the resume lacks.
- A candidate record is then created with six drawn questions: two easy, two medium and two hard, with limits of 20, 60 and 120 seconds.
- The questions are asked one at a time under a countdown. Each answer is typed, or is submitted by the countdown when time runs out.
- A mock scorer grades each answer. A mock summariser turns the six scores into a final score and a paragraph.

On the interviewer's side there is a searchable, sortable candidate list and a detail panel with coloured score bands.

This project models that core in Dafny:

- the two Redux slices, as reducers on values and as store classes whose methods update their fields;
- the mock AI service: question drawing, answer scoring and summary;
- the answer handling of the chat panel;
- the interviewee tab's event handlers, as one session whose every event is a step function, performed in place by `IntervieweeTab.Session`;
- the countdown, as `Timer.Countdown`;
- the list's filter and sort;
- the detail panel's average and colours;
- the resume field extraction.

Modules follow the source files:

| module | file |
|---|---|
| `CandidatesSlice` | `candidatesSlice.ts` |
| `InterviewSlice` | `interviewSlice.ts` |
| `AiMock` | `aiMock.ts` |
| `ChatInterface` | `ChatInterface.tsx` |
| `IntervieweeTab` | `IntervieweeTab.tsx` |
| `Timer` | `Timer.tsx` |
| `CandidateList` | `CandidateList.tsx` |
| `CandidateDetail` | `CandidateDetail.tsx` |
| `ResumeParser` | `resumeParser.ts` |

Two modules support them. `Wrappers` holds `Option`. `Text` holds the JavaScript string built-ins the core uses: `trim`, `toLowerCase`, `includes`, `split` and number-to-string (`NatToString`, `IntToString`, with `ParseNat` to read digits back). `Timer.PadTwo` models `padStart(2, '0')`.

Randomness, identifiers and clocks are parameters:

- the `Math.random` pool picks;
- the `uuidv4` identifiers;
- `Date` as whole milliseconds;
- ISO timestamps as integers.

The two regular expressions of the resume parser are parameters too. They are predicates on candidate substrings.

## Model

| member | source | states |
|---|---|---|
| CandidatesSlice.Merge | src/store/candidatesSlice.ts:46 | `{ ...c, ...updates }`: every field given in the update replaces the stored one; every field left out keeps its value |
| CandidatesSlice.MergeNoUpdates | src/store/candidatesSlice.ts:46 | merging an empty update leaves the candidate unchanged |
| CandidatesSlice.MergeIdempotent | src/store/candidatesSlice.ts:46 | applying the same update twice is the same as applying it once |
| CandidatesSlice.FindIndex | src/store/candidatesSlice.ts:44 | the index is -1 or a position whose candidate has the id |
| CandidatesSlice.FindIndexIsFirst | src/store/candidatesSlice.ts:44 | -1 exactly when no candidate has the id; no earlier candidate has it |
| CandidatesSlice.Find | src/components/ChatInterface.tsx:41-43 | `find` yields a candidate exactly when an id is given and some stored candidate has it, and then yields the first such one |
| CandidatesSlice.FindIsPresent | src/components/IntervieweeTab.tsx:39-41 | a lookup by id succeeds exactly when a stored candidate has that id |
| CandidatesSlice.FindIndexAppend | src/store/candidatesSlice.ts:40-44 | after a push, the lookup of the pushed id finds an earlier holder of the id if there is one, else the new last slot |
| CandidatesSlice.Updated | src/store/candidatesSlice.ts:43-48 | the list keeps its length; with no candidate of the id it is unchanged; otherwise only the first one with the id is replaced, by its merge with the update |
| CandidatesSlice.UpdatedKeepsIds | src/store/candidatesSlice.ts:43-48 | an update that does not touch `id` leaves every id lookup where it was |
| CandidatesSlice.FindIndexSameIds | src/store/candidatesSlice.ts:44 | lists with the same ids position by position give the same lookups |
| CandidatesSlice.CandidatesStore.constructor | src/store/candidatesSlice.ts:32-34 | the store starts with no candidates and no selection |
| CandidatesSlice.CandidatesStore.AddCandidate | src/store/candidatesSlice.ts:40-42 | the candidate is appended and the selection is kept |
| CandidatesSlice.CandidatesStore.UpdateCandidate | src/store/candidatesSlice.ts:43-48 | the list becomes `Updated` of the old list and the selection is kept |
| CandidatesSlice.CandidatesStore.SetSelectedCandidate | src/store/candidatesSlice.ts:49-51 | the selection becomes the id and the list is kept |
| InterviewSlice.AfterSetCurrentCandidate | src/store/interviewSlice.ts:28-30 | the current id is set and nothing else changes |
| InterviewSlice.AfterStartInterview | src/store/interviewSlice.ts:31-35 | the interview is active at question 0 and not collecting; candidate, timer and intake fields are kept |
| InterviewSlice.AfterNextQuestion | src/store/interviewSlice.ts:36-39 | the index goes up by one, the timer is marked not started, and nothing else changes |
| InterviewSlice.AfterStartTimer | src/store/interviewSlice.ts:40-43 | the timer is started with the given seconds, and nothing else changes |
| InterviewSlice.AfterUpdateTimer | src/store/interviewSlice.ts:44-46 | only the remaining time changes |
| InterviewSlice.AfterCompleteInterview | src/store/interviewSlice.ts:47-52 | inactive, index 0, no current candidate and timer not started; the intake fields and remaining time are kept |
| InterviewSlice.AfterSetWelcomeBack | src/store/interviewSlice.ts:53-55 | only the welcome-back flag changes |
| InterviewSlice.AfterSetMissingFields | src/store/interviewSlice.ts:56-58 | only the missing-field list changes |
| InterviewSlice.AfterSetCollectingInfo | src/store/interviewSlice.ts:59-61 | only the collecting flag changes |
| InterviewSlice.AfterResetInterview | src/store/interviewSlice.ts:62-64 | the state is the initial state whatever it was before |
| InterviewSlice.StartThenAdvance | src/store/interviewSlice.ts:31-39 | after a start and k advances the interview is active at question k, with the same candidate, and (for k > 0) the timer is not started |
| InterviewSlice.CompleteThenRestart | src/store/interviewSlice.ts:31-52 | restarting a completed interview begins at question 0, active, with no candidate and no timer |
| InterviewSlice.InterviewStore.constructor | src/store/interviewSlice.ts:14-22 | the store holds the initial state |
| InterviewSlice.InterviewStore.Load | src/store/interviewSlice.ts:3-12 | the store holds exactly the given state |
| InterviewSlice.InterviewStore.SetCurrentCandidate | src/store/interviewSlice.ts:28-30 | the fields become `AfterSetCurrentCandidate` of the old ones |
| InterviewSlice.InterviewStore.StartInterview | src/store/interviewSlice.ts:31-35 | the fields become `AfterStartInterview` of the old ones |
| InterviewSlice.InterviewStore.NextQuestion | src/store/interviewSlice.ts:36-39 | the fields become `AfterNextQuestion` of the old ones |
| InterviewSlice.InterviewStore.StartTimer | src/store/interviewSlice.ts:40-43 | the fields become `AfterStartTimer` of the old ones |
| InterviewSlice.InterviewStore.UpdateTimer | src/store/interviewSlice.ts:44-46 | the fields become `AfterUpdateTimer` of the old ones |
| InterviewSlice.InterviewStore.CompleteInterview | src/store/interviewSlice.ts:47-52 | the fields become `AfterCompleteInterview` of the old ones |
| InterviewSlice.InterviewStore.SetWelcomeBack | src/store/interviewSlice.ts:53-55 | the fields become `AfterSetWelcomeBack` of the old ones |
| InterviewSlice.InterviewStore.SetMissingFields | src/store/interviewSlice.ts:56-58 | the fields become `AfterSetMissingFields` of the old ones |
| InterviewSlice.InterviewStore.SetCollectingInfo | src/store/interviewSlice.ts:59-61 | the fields become `AfterSetCollectingInfo` of the old ones |
| InterviewSlice.InterviewStore.ResetInterview | src/store/interviewSlice.ts:62-64 | the fields become the initial state |
| AiMock.Pool | src/utils/aiMock.ts:4-29 | each difficulty's pool has six questions |
| AiMock.HardLimit | src/utils/aiMock.ts:33-40 | in a list of the standard shape every hard question has the 120-second limit |
| AiMock.GenerateQuestions | src/utils/aiMock.ts:31-55 | six questions, one per template slot, in order: slot i has id i, the picked pool question, the slot's difficulty and limit, and no answer, score or time; the list has the standard easy, easy, medium, medium, hard, hard shape |
| AiMock.LengthTier | src/utils/aiMock.ts:62-69 | the length-based score lies in 1 to 8; it is 8 exactly above 200 characters and 1 exactly at or below 20 |
| AiMock.LengthTierMonotone | src/utils/aiMock.ts:62-69 | a longer answer never gets a lower length score |
| AiMock.BaseScore | src/utils/aiMock.ts:59-69 | the length tier of the trimmed answer (a definition; `BasePaddingIgnored` states its property) |
| AiMock.BasePaddingIgnored | src/utils/aiMock.ts:59-69 | whitespace added before or after an answer never changes its base score |
| AiMock.Multiplier | src/utils/aiMock.ts:72-76 | the difficulty multiplier lies between 1 and 1.5 |
| AiMock.TimeEfficiency | src/utils/aiMock.ts:60 | efficiency is non-negative and is 0 once the limit is spent; within the limit it is the unspent share of it, at most 1 |
| AiMock.TimeBonus | src/utils/aiMock.ts:79 | the time bonus lies in 0 to 2: 2 for an instant answer and 0 once the limit is spent |
| AiMock.KeywordCount | src/utils/aiMock.ts:82-85 | the count is at most the number of keywords |
| AiMock.KeywordCountIsFound | src/utils/aiMock.ts:82-85 | for distinct keywords the count is the number of keywords the text includes |
| AiMock.KeywordCountGrows | src/utils/aiMock.ts:82-85 | text added around an answer never lowers its keyword count |
| AiMock.KeywordCountNone | src/utils/aiMock.ts:82-85 | a text including no keyword counts 0 |
| AiMock.KeywordCountAtLeastOne | src/utils/aiMock.ts:82-85 | a text including one of the keywords counts at least 1 |
| AiMock.KeywordCountAtLeastTwo | src/utils/aiMock.ts:82-85 | a text including two of the keywords counts at least 2 |
| AiMock.KeywordBonus | src/utils/aiMock.ts:82-86 | the keyword bonus lies in 0 to 2 |
| AiMock.KeywordsDistinct | src/utils/aiMock.ts:82 | no keyword is listed twice |
| AiMock.KeywordBonusByFound | src/utils/aiMock.ts:82-86 | the bonus is half a point per distinct keyword the lower-cased answer includes, capped at 2, so a repeated keyword counts once |
| AiMock.RoundTenth | src/utils/aiMock.ts:89 | `Math.round(x * 10) / 10` is a multiple of 0.1 within half a tenth of x (ties round up) |
| AiMock.RoundTenthUnique | src/utils/aiMock.ts:89 | that tenth is the only one in the half-open window around x |
| AiMock.RoundTenthBounds | src/utils/aiMock.ts:88-89 | rounding keeps a value from 1 to 10 within 1 to 10 |
| AiMock.RawScore | src/utils/aiMock.ts:88 | base times multiplier plus time and keyword bonuses, capped at 10, lies in 1 to 10 |
| AiMock.ScoreAnswer | src/utils/aiMock.ts:57-90 | every score is a tenth from 1 to 10 and is the raw score rounded to the nearest tenth |
| AiMock.CappedScenario | src/utils/aiMock.ts:57-90 | a long fast easy answer naming two keywords scores exactly 10 |
| AiMock.BlankAnswerScore | src/utils/aiMock.ts:57-90 | a blank answer to a hard question after its whole limit scores 1.5 |
| AiMock.TotalScore | src/utils/aiMock.ts:93 | the `reduce` sum of the scores, a missing one counted as 0 (a definition; `TotalScoreAppend` states its algebra) |
| AiMock.TotalScoreAppend | src/utils/aiMock.ts:93 | the sum of scores (a missing one as 0) distributes over concatenation |
| AiMock.OfDifficulty | src/utils/aiMock.ts:96-98 | the filtered list holds only questions of that difficulty and is no longer than the input |
| AiMock.OfDifficultyStep | src/utils/aiMock.ts:96-98 | the filtered total grows by the head's score exactly when the head has that difficulty |
| AiMock.TotalScoreByDifficulty | src/utils/aiMock.ts:93-102 | the total is the sum of the easy, medium and hard totals |
| AiMock.Mean | src/utils/aiMock.ts:94 | the average is defined exactly for a non-empty list (JavaScript's NaN for an empty one) |
| AiMock.PerformanceLevel | src/utils/aiMock.ts:107-119 | Excellent from 8, Good from 6 below 8, Fair from 4 below 6, otherwise Needs Improvement, each as an if-and-only-if |
| AiMock.PerformanceName | src/utils/aiMock.ts:107-119 | the level's display name (a table) |
| AiMock.Recommendation | src/utils/aiMock.ts:107-119 | the level's recommendation sentence (a table) |
| AiMock.StandingOf | src/utils/aiMock.ts:131 | strong above 6, adequate above 4 up to 6, weak otherwise (and for an undefined average) |
| AiMock.FoundationalWord | src/utils/aiMock.ts:131 | strong, adequate or weak for the easy standing (a table) |
| AiMock.IntermediateWord | src/utils/aiMock.ts:131 | good, fair or limited for the medium standing (a table) |
| AiMock.AdvancedWord | src/utils/aiMock.ts:131 | impressive, developing or minimal for the hard standing (a table) |
| AiMock.Fixed1 | src/utils/aiMock.ts:122-127 | `toFixed(1)`: the nearest tenth written with one decimal, "NaN" for an undefined average (a definition) |
| AiMock.SummaryText | src/utils/aiMock.ts:121-132 | the trimmed summary template: level, the four averages, the recommendation and the three adjectives (a definition) |
| AiMock.FinalScore | src/utils/aiMock.ts:134 | the summary score is a tenth within half a tenth of the mean |
| AiMock.GenerateSummary | src/utils/aiMock.ts:92-134 | the result's score is `FinalScore`; its level is the mean's performance level; the per-difficulty standings are those of each group's mean |
| AiMock.RoundedEightCanBeGood | src/utils/aiMock.ts:107-134 | an average just under 8 is "Good" while its rounded score reads 8.0 |
| AiMock.MeanOfSixIsMiddling | src/utils/aiMock.ts:131 | a group average of exactly 6 is described as adequate, not strong |
| ChatInterface.TimerShouldStart | src/components/ChatInterface.tsx:49-54 | the timer is started exactly when an answer is awaited, a question is present and the timer has not yet started (a definition) |
| ChatInterface.SubmittedAnswer | src/components/ChatInterface.tsx:56-62 | an answer is submitted exactly when one is awaited and the draft is not blank, and it is the trimmed draft |
| ChatInterface.TimeUpAnswer | src/components/ChatInterface.tsx:88-95 | nothing when no answer is awaited; the trimmed draft when it is not blank; otherwise the time-expired marker |
| ChatInterface.TimeUpAlwaysAnswers | src/components/ChatInterface.tsx:88-95 | while an answer is awaited, time-up always submits a non-empty answer |
| ChatInterface.TimeUpExtendsSubmit | src/components/ChatInterface.tsx:56-95 | whenever a submit would answer, time-up answers the same |
| ChatInterface.ElapsedSeconds | src/components/ChatInterface.tsx:67 | the time spent is the floor of the elapsed milliseconds over 1000, non-negative when the clock did not go back |
| ChatInterface.Answered | src/components/ChatInterface.tsx:72-77 | the question keeps its id, text, difficulty and limit and gains the answer, the time spent and the answer's score |
| ChatInterface.RecordAnswer | src/components/ChatInterface.tsx:71-77 | the copy has the same length; only the current slot changes, to the answered question |
| ChatInterface.RecordedIsAnswered | src/components/ChatInterface.tsx:71-77 | after a non-empty answer the slot counts as answered |
| ChatInterface.RouteAsWritten | src/components/ChatInterface.tsx:65-84 | the answer is scored and handed on exactly when candidate, question and start time are all present; it is never handed on unscored |
| ChatInterface.RouteAnswer | src/components/ChatInterface.tsx:65-84 | as written, and also an intake reply is handed on unscored, as the intake handler expects |
| ChatInterface.IntakeReplyDroppedAsWritten | src/components/ChatInterface.tsx:65 | with no current candidate, as during the intake, the as-written route drops the reply while the intended one hands it on |
| ChatInterface.RoutesAgreeOutsideIntake | src/components/ChatInterface.tsx:65-84 | outside the intake the two routes agree |
| ChatInterface.MarkerHasNoKeyword | src/components/ChatInterface.tsx:93 | the time-expired marker includes none of the scoring keywords |
| ChatInterface.MarkerIsTrimmed | src/components/ChatInterface.tsx:93 | the marker is its own trim and is 33 characters long |
| ChatInterface.SecondTierHardScore | src/utils/aiMock.ts:57-90 | a keyword-free hard answer of 21 to 50 characters after the whole limit scores 3.0 |
| ChatInterface.TimedOutMarkerScore | src/components/ChatInterface.tsx:93 | the marker, as the answer to a hard question after its whole limit, scores 3.0 |
| Timer.Reported | src/components/Timer.tsx:22-23 | the value a tick reports, one less than before (a definition) |
| Timer.Fires | src/components/Timer.tsx:25-28 | a tick calls `onTimeUp` exactly when the reported value is not positive (a definition) |
| Timer.NextRemaining | src/components/Timer.tsx:22-31 | after a tick the remaining time is 0 exactly when the tick fires, and otherwise one second less |
| Timer.AfterTicksCountsDown | src/components/Timer.tsx:22-31 | before it fires, n ticks take n seconds off |
| Timer.FirstFireOnTickT | src/components/Timer.tsx:22-31 | from t seconds the countdown first fires on tick t |
| Timer.StaysAtZero | src/components/Timer.tsx:22-31 | from 0 it stays at 0 and fires on every tick |
| Timer.Countdown.constructor | src/components/Timer.tsx:12 | the countdown starts at the total time |
| Timer.Countdown.Mount | src/components/Timer.tsx:12 | mounting anew resets the countdown to the total time |
| Timer.Countdown.SetTotalTime | src/components/Timer.tsx:14-16 | a new total resets the remaining time; the same total keeps it |
| Timer.Countdown.Tick | src/components/Timer.tsx:21-33 | the reported value is one less than before; time is up exactly when it is at most 0; the remaining time follows `NextRemaining`; the total is kept |
| Timer.Minutes | src/components/Timer.tsx:38 | the minutes are the floor of the seconds over 60 |
| Timer.Seconds | src/components/Timer.tsx:39 | JavaScript's remainder: for a non-negative time, minutes times 60 plus seconds is the time; for a negative one it is non-positive |
| Timer.PadTwo | src/components/Timer.tsx:57 | `padStart(2, '0')` keeps strings of two or more characters and left-pads shorter ones with zeros to length 2 |
| Timer.Clock | src/components/Timer.tsx:57 | the `m:ss` text (a definition; `ClockReadsBack` states its property) |
| Timer.ClockReadsBack | src/components/Timer.tsx:38-57 | the clock reads `m:ss`, the seconds field has two digits, and reading both fields back gives the time |
| Timer.IsLowTime | src/components/Timer.tsx:40-42 | low time is at most a quarter of the total left |
| Timer.IsCritical | src/components/Timer.tsx:40-43 | critical is at most a tenth of the total left |
| Timer.CriticalIsLow | src/components/Timer.tsx:42-43 | critical time is always low time |
| Text.Trim | src/utils/aiMock.ts:59 | the trimmed string is no longer than the input, is empty exactly for a blank string, and otherwise starts and ends with non-whitespace |
| Text.TrimEnd | src/utils/aiMock.ts:59 | the trim ends after the leading whitespace, only whitespace follows it, and for a non-blank string it ends on a non-whitespace character |
| Text.TrimAt | src/utils/aiMock.ts:59 | the trimmed string is the stretch after the leading whitespace, with only whitespace after it |
| Text.TrimUnique | src/utils/aiMock.ts:59 | any stretch with only whitespace around it that is empty or starts and ends with non-whitespace is the trim |
| Text.TrimPadded | src/utils/aiMock.ts:59 | whitespace added around a string does not change its trim |
| Text.ToLower | src/components/CandidateList.tsx:15-16 | the same length, each letter lower-cased |
| Text.Split | src/utils/resumeParser.ts:56 | a split yields at least one part, and no part holds the separator; with `JoinSplit` this fixes every part |
| Text.JoinSplit | src/utils/resumeParser.ts:56 | joining the parts with the separator gives the text back |
| ResumeParser.LongestFrom | src/utils/resumeParser.ts:79-80 | the end is -1 or the furthest end of a match at the start, and no match from there ends further |
| ResumeParser.MatchFrom | src/utils/resumeParser.ts:79-80 | the leftmost match at or after a position, longest at its start; none exactly when there is no match there |
| ResumeParser.FirstMatch | src/utils/resumeParser.ts:79-86 | `text.match(re)?.[0] \|\| undefined` is defined exactly when the pattern matches somewhere, and then is the leftmost match, longest at its start |
| ResumeParser.ParseResume | src/utils/resumeParser.ts:25-28 | the parsed resume keeps the text, has an email exactly when the email pattern matches, a phone exactly when the phone pattern matches, and a name only if it passes the name test |
| ResumeParser.Keep | src/utils/resumeParser.ts:56 | a filter is never longer than its input |
| ResumeParser.KeepMembers | src/utils/resumeParser.ts:56 | the filter keeps exactly the members that pass |
| ResumeParser.KeepAppend | src/utils/resumeParser.ts:56 | the filter distributes over concatenation, so it keeps order |
| ResumeParser.NonBlankLines | src/utils/resumeParser.ts:56 | the kept lines are exactly the lines of the text that are not blank |
| ResumeParser.BlankLineIgnored | src/utils/resumeParser.ts:56 | inserting a blank line anywhere does not change the kept lines |
| ResumeParser.ScanLength | src/utils/resumeParser.ts:60 | `Math.min(3, lines.length)` |
| ResumeParser.FirstIndex | src/utils/resumeParser.ts:60-77 | the first index passing the test, or -1 exactly when none does |
| ResumeParser.NameFromLines | src/utils/resumeParser.ts:60-77 | a name is the trim of one of the first three lines, passes the name test, and every earlier line fails it; no name exactly when all of them fail |
| ResumeParser.ExtractFields | src/utils/resumeParser.ts:51-86 | the loop's name and the two first matches are exactly `ParseResume` of the text |
| ResumeParser.NameShape | src/utils/resumeParser.ts:63-72 | a found name has 4 to 49 characters, no '@', no phone match, no leading digit, no "resume" or "cv" in any case, and 2 to 4 words each starting with an upper-case then a lower-case letter; it is the trim of one of the first three lines |
| ResumeParser.FirstQualifyingLineWins | src/utils/resumeParser.ts:73-74 | the first of the scanned lines that qualifies is the name |
| ResumeParser.LaterLinesIgnored | src/utils/resumeParser.ts:60 | lines after the third never change the name |
| IntervieweeTab.Set | src/components/IntervieweeTab.tsx:213 | `{ ...resumeData, [field]: v }` sets that field and keeps the others and the text |
| IntervieweeTab.MissingFields | src/components/IntervieweeTab.tsx:70-73 | the missing list is exactly the unfilled fields, in the order name, email, phone |
| IntervieweeTab.CurrentMissingIndex | src/components/IntervieweeTab.tsx:206-208 | the first listed field still empty, or -1 exactly when all are filled |
| IntervieweeTab.Unfilled | src/components/IntervieweeTab.tsx:216-218 | the listed fields still empty |
| IntervieweeTab.RemainingFields | src/components/IntervieweeTab.tsx:216-218 | the listed fields after the current one that are still empty |
| IntervieweeTab.UnfilledKeepsAll | src/components/IntervieweeTab.tsx:216-218 | when no listed field is filled the filter keeps them all |
| IntervieweeTab.IntakeStart | src/components/IntervieweeTab.tsx:70-77 | right after upload the list is duplicate-free, no listed field is filled and every other field is |
| IntervieweeTab.IntakeStep | src/components/IntervieweeTab.tsx:205-222 | the k-th non-empty reply fills the k-th listed field and no other, and the fields after it are exactly the ones left to ask for |
| IntervieweeTab.IntakeDone | src/components/IntervieweeTab.tsx:220-229 | once every listed field is filled nothing is missing |
| IntervieweeTab.DrawCandidate | src/components/IntervieweeTab.tsx:88-89 | the drawn list is `generateQuestions`' list for the ids and picks: six unanswered, unscored questions in the standard shape |
| IntervieweeTab.NewRecord | src/components/IntervieweeTab.tsx:91-102 | in progress, score 0, empty summary, not completed, with the drawn questions, the resume text and, for complete data, its contact fields |
| IntervieweeTab.InitialViewOk | src/components/IntervieweeTab.tsx:43-48 | the freshly mounted session satisfies the session invariant |
| IntervieweeTab.CurrentCandidate | src/components/IntervieweeTab.tsx:39-41 | the current candidate is the stored one at the first position with the current id |
| IntervieweeTab.CurrentQuestion | src/components/IntervieweeTab.tsx:309-313 | `candidate?.questions[currentQuestionIndex]` exists exactly with a candidate and an index in range, and under the invariant has a positive limit |
| IntervieweeTab.UpdatedKeepsShape | src/store/candidatesSlice.ts:43-48 | an update that keeps or replaces a question list by a standard one keeps every candidate's shape |
| IntervieweeTab.CompletionUpdate | src/components/IntervieweeTab.tsx:161-169 | merging the update into any candidate sets the summary's score, the summary, status completed and the completion time, and keeps every other field |
| IntervieweeTab.CompleteFlow | src/components/IntervieweeTab.tsx:156-172 | without a current candidate nothing happens; every result keeps the session invariant |
| IntervieweeTab.CompletionMarksCandidate | src/components/IntervieweeTab.tsx:156-172 | the current candidate becomes completed with the summary's score, the summary and the completion time and keeps every other field; every other candidate is kept, and the session is closed |
| IntervieweeTab.MockSummary | src/components/IntervieweeTab.tsx:159 | the paragraph `generateSummary` writes for the questions (a definition, used as the session's summary service) |
| IntervieweeTab.AskNext | src/components/IntervieweeTab.tsx:133-154 | past the last question the interview completes, otherwise an answer is awaited; the invariant is kept |
| IntervieweeTab.StartFor | src/components/IntervieweeTab.tsx:87-131 | creating the candidate and asking question 0 keeps the invariant |
| IntervieweeTab.StartAppendsCandidate | src/components/IntervieweeTab.tsx:87-131 | the new record is appended and becomes current, the interview starts at question 0, its answer is awaited, and for a fresh id the current question is the first drawn one |
| IntervieweeTab.ResumeUploaded | src/components/IntervieweeTab.tsx:66-85 | the invariant is kept by the upload, which starts the intake when fields are missing and the interview otherwise |
| IntervieweeTab.CompleteResumeStartsAtOnce | src/components/IntervieweeTab.tsx:75-84 | a resume with name, email and phone starts the interview at once, with one new candidate |
| IntervieweeTab.MissingFieldResponse | src/components/IntervieweeTab.tsx:205-230 | the intake reply handler keeps the invariant |
| IntervieweeTab.SendMessage | src/components/IntervieweeTab.tsx:186-203 | the message handler keeps the invariant |
| IntervieweeTab.Replies | src/components/IntervieweeTab.tsx:186-230 | any sequence of replies keeps the invariant |
| IntervieweeTab.IntakeReply | src/components/IntervieweeTab.tsx:205-230 | during the intake one non-empty reply asks for the next field, or after the last field starts the interview |
| IntervieweeTab.IntakeReplies | src/components/IntervieweeTab.tsx:205-230 | after j non-empty replies the intake waits for field k+j, or the interview has started |
| IntervieweeTab.IntakeTakesOneReplyPerField | src/components/IntervieweeTab.tsx:66-230 | a resume lacking m fields takes exactly m non-empty replies: after fewer no candidate exists, and after m the candidate, with all contact fields filled, is created and interviewed |
| IntervieweeTab.IntakeReplyLostAsWritten | src/components/ChatInterface.tsx:65 | as written an intake reply changes nothing and the field stays empty, while the intended routing fills it |
| IntervieweeTab.QuestionsUpdate | src/components/ChatInterface.tsx:79-82 | merging the dispatched update into any candidate replaces its question list and changes nothing else |
| IntervieweeTab.HandleAnswer | src/components/ChatInterface.tsx:64-86 | the invariant is kept; a dropped answer changes nothing; an intake reply is passed straight to the message handler |
| IntervieweeTab.HandleAnswerAsWritten | src/components/ChatInterface.tsx:64-86 | the as-written handler keeps the invariant and changes nothing when it returns early |
| IntervieweeTab.WithAnswer | src/components/ChatInterface.tsx:67-82 | only the current candidate's current question changes, to its answered form, and the candidate stays current |
| IntervieweeTab.ScoreAndSend | src/components/ChatInterface.tsx:79-85 | after a scored answer the invariant holds and the start time is cleared |
| IntervieweeTab.AnswerRecorded | src/components/ChatInterface.tsx:64-86 | answering the current question records exactly that slot, as the answered question (answer, score, time spent) |
| IntervieweeTab.AnswerKeepsSlots | src/components/ChatInterface.tsx:64-86 | every other candidate is kept and the current one keeps its place with its recorded list; the start time is cleared |
| IntervieweeTab.AnswerMovesOn | src/components/IntervieweeTab.tsx:192-201 | an answer before the last question moves to the next one and awaits it |
| IntervieweeTab.LastAnswerCompletes | src/components/IntervieweeTab.tsx:192-201 | the answer to the last question completes the candidate with the final score of its recorded answers and closes the session |
| IntervieweeTab.Submit | src/components/ChatInterface.tsx:56-62 | a blank draft, or no awaited answer, changes nothing; the invariant is kept |
| IntervieweeTab.SubmitAsWritten | src/components/ChatInterface.tsx:56-65 | a submit on top of the as-written handler keeps the invariant |
| IntervieweeTab.TimeUp | src/components/ChatInterface.tsx:88-95 | with no awaited answer nothing happens; the invariant is kept |
| IntervieweeTab.TimeoutRecordsMarker | src/components/ChatInterface.tsx:88-95 | when the countdown runs out on a blank draft, the marker is recorded as the current answer with its score, which is 3.0 on a hard question answered after its whole limit |
| IntervieweeTab.StartTimerEffect | src/components/ChatInterface.tsx:49-54 | outside its condition the effect changes nothing; the invariant is kept |
| IntervieweeTab.TimerStartsOnce | src/components/ChatInterface.tsx:49-54 | running the effect again changes nothing |
| IntervieweeTab.CurrentHardLimit | src/components/ChatInterface.tsx:143-149 | a hard current question has the 120-second limit |
| IntervieweeTab.TimerTick | src/components/ChatInterface.tsx:97-99 | a tick of a hidden countdown changes nothing; the invariant is kept |
| IntervieweeTab.Session.constructor | src/components/IntervieweeTab.tsx:43-48 | the mounted tab's view is the initial session, writing summaries with the mock service |
| IntervieweeTab.Session.SetInput | src/components/ChatInterface.tsx:160 | only the draft changes |
| IntervieweeTab.Session.CompleteInterviewFlow | src/components/IntervieweeTab.tsx:156-184 | the new view is `CompleteFlow` of the old one |
| IntervieweeTab.Session.AskNextQuestion | src/components/IntervieweeTab.tsx:133-154 | the new view is `AskNext` of the old one |
| IntervieweeTab.Session.CreateCandidateAndStartInterview | src/components/IntervieweeTab.tsx:87-131 | the new view is `StartFor` of the old one |
| IntervieweeTab.Session.HandleResumeUploaded | src/components/IntervieweeTab.tsx:66-85 | the new view is `ResumeUploaded` of the old one |
| IntervieweeTab.Session.HandleMissingFieldResponse | src/components/IntervieweeTab.tsx:205-230 | the new view is `MissingFieldResponse` of the old one |
| IntervieweeTab.Session.HandleSendMessage | src/components/IntervieweeTab.tsx:186-203 | the new view is `SendMessage` of the old one |
| IntervieweeTab.Session.Answer | src/components/ChatInterface.tsx:64-86 | the new view is `HandleAnswer` of the old one |
| IntervieweeTab.Session.HandleSubmit | src/components/ChatInterface.tsx:56-62 | the new view is `Submit` of the old one |
| IntervieweeTab.Session.HandleTimeUp | src/components/ChatInterface.tsx:88-95 | the new view is `TimeUp` of the old one |
| IntervieweeTab.Session.TimerEffect | src/components/ChatInterface.tsx:49-54 | the new view is `StartTimerEffect` of the old one |
| IntervieweeTab.Session.Tick | src/components/Timer.tsx:21-33 | the new view is `TimerTick` of the old one |
| CandidateDetail.CompletedQuestions | src/components/CandidateDetail.tsx:40 | the kept questions are exactly the answered ones, no more than there were |
| CandidateDetail.CompletedAppend | src/components/CandidateDetail.tsx:40 | the filter distributes over concatenation, so it keeps order |
| CandidateDetail.CompletedAll | src/components/CandidateDetail.tsx:40 | nothing is dropped exactly when every question is answered, and then the list is unchanged |
| CandidateDetail.AverageScore | src/components/CandidateDetail.tsx:41-43 | the mean of the answered questions' scores, and 0 when none is answered |
| CandidateDetail.TotalScoreBounds | src/components/CandidateDetail.tsx:42 | with scores on the 0 to 10 scale the total lies between 0 and 10 per question |
| CandidateDetail.CompletedInRange | src/components/CandidateDetail.tsx:40 | the answered questions' scores stay on the scale |
| CandidateDetail.AverageInRange | src/components/CandidateDetail.tsx:41-43 | with scores on the scale the average lies in 0 to 10 |
| CandidateDetail.AverageOfFinishedInterview | src/components/CandidateDetail.tsx:41-43 | once every question is answered the panel's average is the mean of all scores, and the final score is within half a tenth of it |
| CandidateDetail.ScoreBand | src/components/CandidateDetail.tsx:24-29 | green from 8, blue from 6 below 8, amber from 4 below 6, red below 4, each as an if-and-only-if |
| CandidateDetail.BandMonotone | src/components/CandidateDetail.tsx:24-29 | a higher score never gets a worse band |
| CandidateDetail.ScoreColorByBand | src/components/CandidateDetail.tsx:24-29 | two scores share a colour exactly when they share a band |
| CandidateDetail.DifficultyColor | src/components/CandidateDetail.tsx:31-38 | the grey default appears exactly for a text that names no difficulty |
| CandidateDetail.DifficultyColorsDistinct | src/components/CandidateDetail.tsx:31-38 | the three difficulties get three different colours |
| CandidateList.Matches | src/components/CandidateList.tsx:14-17 | the lower-cased name or email includes the lower-cased term (a definition) |
| CandidateList.Filter | src/components/CandidateList.tsx:13-17 | the kept candidates are exactly those whose lower-cased name or email includes the lower-cased term, each matching one as often as it is stored and no other |
| CandidateList.EmptyTermKeepsAll | src/components/CandidateList.tsx:13-17 | an empty search keeps the whole list unchanged |
| CandidateList.LexCompare | src/components/CandidateList.tsx:25 | the name comparison is 0 exactly for equal names and is -1, 0 or 1 |
| CandidateList.LexCompareAntisymmetric | src/components/CandidateList.tsx:25 | swapping the names negates the comparison |
| CandidateList.LexCompareTransitive | src/components/CandidateList.tsx:25 | the name order is transitive |
| CandidateList.Compare | src/components/CandidateList.tsx:18-29 | by score the higher final score goes first, by date the newer, by name the smaller in code-point order; the comparator is 0 exactly for equal keys |
| CandidateList.CompareAntisymmetric | src/components/CandidateList.tsx:18-29 | for every sort key, swapping the arguments negates the comparator |
| CandidateList.CompareTransitive | src/components/CandidateList.tsx:18-29 | for every sort key the comparator's order is transitive |
| CandidateList.Insert | src/components/CandidateList.tsx:18-29 | inserting into a sorted list keeps it sorted and adds exactly that candidate |
| CandidateList.SortBy | src/components/CandidateList.tsx:18-29 | the result is in comparator order and is a permutation of the input |
| CandidateList.SortedAllPairs | src/components/CandidateList.tsx:18-29 | in a sorted list every earlier candidate compares at most equal to every later one |
| CandidateList.ScoreSortedDescends | src/components/CandidateList.tsx:20-21 | sorted by score, final scores never increase down the list |
| CandidateList.DateSortedDescends | src/components/CandidateList.tsx:22-23 | sorted by date, the newest candidate comes first |
| CandidateList.NameSortedAscends | src/components/CandidateList.tsx:24-25 | sorted by name, names ascend |
| CandidateList.Listed | src/components/CandidateList.tsx:13-29 | the shown list is sorted, exactly the matching candidates, each as often as stored |
| CandidateList.EmptySearchListsEveryone | src/components/CandidateList.tsx:13-29 | with an empty search every stored candidate is shown, merely reordered |
| CandidateList.AnsweredCount | src/components/CandidateList.tsx:137 | the answered count is the number of positions holding an answered question; so it is at most the number of questions, equals it exactly when all are answered, and is 0 exactly when none is |
| CandidateList.AnsweredPrefix | src/components/CandidateList.tsx:137 | in every prefix, the answered questions kept by the filter are as many as the answered positions |
| CandidateList.ListScoreColorByBand | src/components/CandidateList.tsx:42-47 | two scores share the list's colour exactly when they share a band |

## Findings

| source | as written | input that shows it | evidently intended | confidence | as-written member | corrected member |
|---|---|---|---|---|---|---|
| src/components/ChatInterface.tsx:65 | `handleAnswer` returns when there is no current candidate. During the intake from an empty store there is never one, so every reply is dropped and `handleMissingFieldResponse` (IntervieweeTab.tsx:205-230) is never reached. | A resume without a phone number; the interviewee then replies "555-0100". The field stays empty and the interview never starts. | An intake reply is handed on to the intake handler unscored. | not executed | ChatInterface.IntakeReplyDroppedAsWritten, IntervieweeTab.IntakeReplyLostAsWritten | ChatInterface.RouteAnswer, IntervieweeTab.HandleAnswer, IntervieweeTab.IntakeTakesOneReplyPerField |

When time runs out on a hard question with an empty draft, a blank answer would score 1.5 (`AiMock.BlankAnswerScore`). The code does not submit a blank answer: it submits the 33-character text "No answer provided (time expired)", and that text scores 3.0 (`ChatInterface.TimedOutMarkerScore`, `IntervieweeTab.TimeoutRecordsMarker`). The model follows the code.

## Left out

- Rendering, the chat message texts, icons (`getStatusIcon`), the progress bar, the list's empty-state message and the welcome-back modal. They only display state.
- `App.tsx`, `InterviewerTab.tsx`, `WelcomeBackModal.tsx` and `ResumeUpload.tsx` are not part of this model.
- `parseResume`'s file-type dispatch and the PDF and DOCX text extraction are left out, with its unsupported-type error. They are library calls; the model starts from the extracted text.
- The email and phone regular expressions are parameters, not automata. A match is found leftmost, longest at its start, rather than by JavaScript's backtracking order.
- The `g` flag of the phone regex keeps a `lastIndex` between `test` calls; that state is not modelled.
- `setTimeout` delays (1 and 2 seconds) and `setInterval`/`clearInterval` are not modelled as time. Each delayed step is performed at once, and each countdown tick is one event.
- React's stale closures are not modelled. Read as text, `completeInterviewFlow` runs with the candidate as it was before the last answer was stored, so the filed final score counts the last answer as 0: six answers scored 10 would be filed as 8.3 (50 / 6, rounded to a tenth). In the model every handler reads the current state, and `IntervieweeTab.LastAnswerCompletes` files the score of all recorded answers.
- The session starts from an empty store. A store restored by `redux-persist` after a reload (`App.tsx`) is not covered: there `resumeData` is empty while a current candidate may still be set, which `IntervieweeTab.SessionOk` excludes.
- `Math.random`, `uuidv4` and `new Date()` are parameters (the pool picks, the ids, the millisecond clock). ISO timestamps are integers.
- Scores are exact reals, not IEEE doubles. `toFixed(1)` in the summary paragraph is not formatted exactly.
- The summary paragraph reaches the session as a function parameter of the initial view. The constructor instantiates it with the mock summary text.
- `localeCompare` is code-point order. `toLowerCase` folds only ASCII letters. Lengths are counted in characters, not UTF-16 units.
- CandidateList.SortBy: does not state which of two equal-comparing candidates comes first (insertion sort, not the engine's `sort`).
- CandidateDetail.DifficultyColor: the grey default is unreachable for typed questions. It is stated for any text, not only for the three difficulties.
- Timer.IsLowTime: does not model a non-positive total time, where the percentage is not a number.
