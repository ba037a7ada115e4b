/**
 * The candidate store: the `Question` and `Candidate` records and the three reducers of the
 * candidates slice, which push onto and overwrite entries of one list in place.
 */
module CandidatesSlice {
  import opened Wrappers

  datatype Difficulty = Easy | Medium | Hard

  /** One interview question; `answer`, `score` and `timeSpent` are set once it is answered. */
  datatype Question = Question(
    id: string,
    question: string,
    difficulty: Difficulty,
    timeLimit: int,
    answer: Option<string>,
    score: Option<real>,
    timeSpent: Option<int>)

  datatype Status = Pending | InProgress | Completed

  /** Timestamps are milliseconds since the epoch (the source stores them as ISO strings). */
  datatype Candidate = Candidate(
    id: string,
    name: string,
    email: string,
    phone: string,
    resumeText: string,
    questions: seq<Question>,
    finalScore: real,
    summary: string,
    status: Status,
    createdAt: int,
    completedAt: Option<int>)

  /** `Partial<Candidate>`: a field that is `Some` is present in the update object. */
  datatype CandidateUpdate = CandidateUpdate(
    id: Option<string>,
    name: Option<string>,
    email: Option<string>,
    phone: Option<string>,
    resumeText: Option<string>,
    questions: Option<seq<Question>>,
    finalScore: Option<real>,
    summary: Option<string>,
    status: Option<Status>,
    createdAt: Option<int>,
    completedAt: Option<int>)

  const NoUpdates := CandidateUpdate(None, None, None, None, None, None, None, None, None, None, None)

  /** A question counts as answered when its answer is truthy: present and not empty. */
  predicate HasAnswer(q: Question)
  {
    q.answer.Some? && q.answer.value != ""
  }

  /** `{ ...c, ...u }`: the present fields of `u` override those of `c`. */
  function Merge(c: Candidate, u: CandidateUpdate): (r: Candidate)
    ensures u.id.Some? ==> r.id == u.id.value
    ensures u.id.None? ==> r.id == c.id
    ensures u.name.Some? ==> r.name == u.name.value
    ensures u.name.None? ==> r.name == c.name
    ensures u.email.Some? ==> r.email == u.email.value
    ensures u.email.None? ==> r.email == c.email
    ensures u.phone.Some? ==> r.phone == u.phone.value
    ensures u.phone.None? ==> r.phone == c.phone
    ensures u.resumeText.Some? ==> r.resumeText == u.resumeText.value
    ensures u.resumeText.None? ==> r.resumeText == c.resumeText
    ensures u.questions.Some? ==> r.questions == u.questions.value
    ensures u.questions.None? ==> r.questions == c.questions
    ensures u.finalScore.Some? ==> r.finalScore == u.finalScore.value
    ensures u.finalScore.None? ==> r.finalScore == c.finalScore
    ensures u.summary.Some? ==> r.summary == u.summary.value
    ensures u.summary.None? ==> r.summary == c.summary
    ensures u.status.Some? ==> r.status == u.status.value
    ensures u.status.None? ==> r.status == c.status
    ensures u.createdAt.Some? ==> r.createdAt == u.createdAt.value
    ensures u.createdAt.None? ==> r.createdAt == c.createdAt
    ensures u.completedAt.Some? ==> r.completedAt == u.completedAt
    ensures u.completedAt.None? ==> r.completedAt == c.completedAt
  {
    Candidate(
      u.id.GetOr(c.id),
      u.name.GetOr(c.name),
      u.email.GetOr(c.email),
      u.phone.GetOr(c.phone),
      u.resumeText.GetOr(c.resumeText),
      u.questions.GetOr(c.questions),
      u.finalScore.GetOr(c.finalScore),
      u.summary.GetOr(c.summary),
      u.status.GetOr(c.status),
      u.createdAt.GetOr(c.createdAt),
      if u.completedAt.Some? then u.completedAt else c.completedAt)
  }

  /** An update with no fields leaves the record as it was. */
  lemma MergeNoUpdates(c: Candidate)
    ensures Merge(c, NoUpdates) == c
  {
  }

  /** Applying the same update twice is the same as applying it once. */
  lemma MergeIdempotent(c: Candidate, u: CandidateUpdate)
    ensures Merge(Merge(c, u), u) == Merge(c, u)
  {
  }

  /** `candidates.findIndex(c => c.id === id)`: a position holding `id`, or -1 (see `FindIndexIsFirst`). */
  function FindIndex(cs: seq<Candidate>, id: string): (r: int)
    ensures -1 <= r < |cs|
    ensures r >= 0 ==> cs[r].id == id
  {
    if |cs| == 0 then -1
    else if cs[0].id == id then 0
    else
      var r := FindIndex(cs[1..], id);
      if r < 0 then -1 else r + 1
  }

  /** `findIndex` gives -1 exactly when `id` is absent, and otherwise its first position. */
  lemma {:induction false} FindIndexIsFirst(cs: seq<Candidate>, id: string)
    ensures FindIndex(cs, id) == -1 <==> forall i :: 0 <= i < |cs| ==> cs[i].id != id
    ensures forall i :: 0 <= i < FindIndex(cs, id) ==> cs[i].id != id
  {
    if |cs| > 0 && cs[0].id != id {
      FindIndexIsFirst(cs[1..], id);
      assert forall i :: 1 <= i < |cs| ==> cs[i] == cs[1..][i - 1];
    }
  }

  /** `candidates.find(c => c.id === id)`, with an absent id finding nothing. */
  function Find(cs: seq<Candidate>, id: Option<string>): (r: Option<Candidate>)
    ensures r.Some? <==> id.Some? && FindIndex(cs, id.value) >= 0
    ensures r.Some? ==> r.value == cs[FindIndex(cs, id.value)]
  {
    if id.None? then None
    else
      var k := FindIndex(cs, id.value);
      if k < 0 then None else Some(cs[k])
  }

  /** `find` succeeds exactly when some entry holds the id. */
  lemma FindIsPresent(cs: seq<Candidate>, id: string)
    ensures Find(cs, Some(id)).Some? <==> exists i :: 0 <= i < |cs| && cs[i].id == id
  {
    FindIndexIsFirst(cs, id);
  }

  /**
   * Appending never changes which entry an existing id finds, so a duplicate id added later is
   * shadowed by the earlier one: the store has no duplicate check.
   */
  lemma {:induction false} FindIndexAppend(cs: seq<Candidate>, c: Candidate)
    ensures FindIndex(cs + [c], c.id) == if FindIndex(cs, c.id) >= 0 then FindIndex(cs, c.id) else |cs|
  {
    if |cs| > 0 && cs[0].id != c.id {
      FindIndexAppend(cs[1..], c);
      assert (cs + [c])[1..] == cs[1..] + [c];
    }
  }

  /**
   * The list after `updateCandidate(id, u)`: the first entry with `id` is merged with `u`, every
   * other entry is kept, and an unknown id leaves the list as it was.
   */
  function Updated(cs: seq<Candidate>, id: string, u: CandidateUpdate): (r: seq<Candidate>)
    ensures |r| == |cs|
    ensures FindIndex(cs, id) < 0 ==> r == cs
    ensures FindIndex(cs, id) >= 0 ==>
              r[FindIndex(cs, id)] == Merge(cs[FindIndex(cs, id)], u)
              && forall i :: 0 <= i < |cs| && i != FindIndex(cs, id) ==> r[i] == cs[i]
  {
    var k := FindIndex(cs, id);
    if k < 0 then cs else cs[k := Merge(cs[k], u)]
  }

  /** An update that keeps the id keeps every id in the list, so later lookups find the same places. */
  lemma {:induction false} UpdatedKeepsIds(cs: seq<Candidate>, id: string, u: CandidateUpdate, other: string)
    requires u.id.None?
    ensures FindIndex(Updated(cs, id, u), other) == FindIndex(cs, other)
  {
    var r := Updated(cs, id, u);
    assert forall i :: 0 <= i < |cs| ==> r[i].id == cs[i].id;
    FindIndexSameIds(cs, r, other);
  }

  /** Lists with the same ids in the same places give the same `findIndex`. */
  lemma {:induction false} FindIndexSameIds(a: seq<Candidate>, b: seq<Candidate>, id: string)
    requires |a| == |b| && forall i :: 0 <= i < |a| ==> a[i].id == b[i].id
    ensures FindIndex(a, id) == FindIndex(b, id)
  {
    if |a| > 0 && a[0].id != id {
      assert forall i :: 0 <= i < |a| - 1 ==> a[1..][i].id == b[1..][i].id;
      FindIndexSameIds(a[1..], b[1..], id);
    }
  }

  /** The candidates slice: a list updated in place and the dashboard selection. */
  class CandidatesStore {
    var candidates: seq<Candidate>
    var selectedCandidateId: Option<string>

    constructor ()
      ensures candidates == [] && selectedCandidateId == None
    {
      candidates := [];
      selectedCandidateId := None;
    }

    /** `addCandidate`: appends at the end, whether or not the id is already present. */
    method AddCandidate(c: Candidate)
      modifies this
      ensures candidates == old(candidates) + [c]
      ensures selectedCandidateId == old(selectedCandidateId)
    {
      candidates := candidates + [c];
    }

    /**
     * `updateCandidate`: merges `updates` into the first candidate with `id`; an unknown id
     * leaves the list as it was.
     */
    method UpdateCandidate(id: string, updates: CandidateUpdate)
      modifies this
      ensures candidates == Updated(old(candidates), id, updates)
      ensures selectedCandidateId == old(selectedCandidateId)
    {
      var index := FindIndex(candidates, id);
      if index != -1 {
        candidates := candidates[index := Merge(candidates[index], updates)];
      }
    }

    /** `setSelectedCandidate`: only the selection changes. */
    method SetSelectedCandidate(id: string)
      modifies this
      ensures selectedCandidateId == Some(id)
      ensures candidates == old(candidates)
    {
      selectedCandidateId := Some(id);
    }
  }
}
