/** The subtopic records the Subjects and Progress pages read
    (src/pages/Subjects.tsx lines 17-22, src/pages/Progress.tsx lines 14-17),
    the two queries both pages run over them (the subtopics of one subject
    and how many of them are completed), and what a page keeps when it
    reloads a table from the backend. */
module StudyData {
  import opened Wrappers
  import opened Seqs

  /** One row of the `subtopics` table. */
  datatype Subtopic = Subtopic(id: string, subjectId: string, name: string, completed: bool)

  function BelongsTo(subjectId: string): Subtopic -> bool {
    (st: Subtopic) => st.subjectId == subjectId
  }

  function IsCompleted(st: Subtopic): bool {
    st.completed
  }

  /** `getSubtopicsForSubject`: the subtopics whose `subject_id` is the
      given subject. */
  function ForSubject(subtopics: seq<Subtopic>, subjectId: string): (r: seq<Subtopic>)
    ensures |r| <= |subtopics|
    ensures forall k :: 0 <= k < |r| ==> r[k].subjectId == subjectId
  {
    Filter(subtopics, BelongsTo(subjectId))
  }

  /** The number of completed subtopics in a list (`filter(st =>
      st.completed).length`). */
  function CompletedCount(subtopics: seq<Subtopic>): (n: nat)
    ensures n <= |subtopics|
  {
    |Filter(subtopics, IsCompleted)|
  }

  /** `ForSubject` keeps exactly the subject's subtopics, each once and in
      their original order: position `k` of the result is position `src[k]`
      of the input, the positions increase, and a position is used exactly
      when its subtopic belongs to the subject. */
  lemma ForSubjectSelects(subtopics: seq<Subtopic>, subjectId: string) returns (src: seq<nat>)
    ensures |src| == |ForSubject(subtopics, subjectId)| && StrictlyIncreasing(src)
    ensures forall k :: 0 <= k < |src| ==>
      src[k] < |subtopics| && ForSubject(subtopics, subjectId)[k] == subtopics[src[k]]
    ensures forall i :: 0 <= i < |subtopics| ==> (i in src <==> subtopics[i].subjectId == subjectId)
  {
    src := FilterSources(subtopics, BelongsTo(subjectId));
  }

  /** A subject's completed count never exceeds its number of subtopics,
      and equals it exactly when all of them are completed. */
  lemma CompletedCountOfSubject(subtopics: seq<Subtopic>, subjectId: string)
    ensures CompletedCount(ForSubject(subtopics, subjectId)) <= |ForSubject(subtopics, subjectId)|
    ensures CompletedCount(ForSubject(subtopics, subjectId)) == |ForSubject(subtopics, subjectId)|
        <==> forall k :: 0 <= k < |subtopics| && subtopics[k].subjectId == subjectId ==> subtopics[k].completed
  {
    var mine := ForSubject(subtopics, subjectId);
    FilterKeepsAll(mine, IsCompleted);
    var src := ForSubjectSelects(subtopics, subjectId);
    if forall k :: 0 <= k < |mine| ==> mine[k].completed {
      forall k | 0 <= k < |subtopics| && subtopics[k].subjectId == subjectId
        ensures subtopics[k].completed
      {
        assert k in src;
        var j :| 0 <= j < |src| && src[j] == k;
        assert mine[j] == subtopics[k];
      }
    }
  }

  /** Other subjects' subtopics, wherever they sit in the list, do not
      change a subject's subtopics. */
  lemma ForSubjectIgnoresOthers(before: seq<Subtopic>, other: Subtopic, after: seq<Subtopic>, subjectId: string)
    requires other.subjectId != subjectId
    ensures ForSubject(before + [other] + after, subjectId) == ForSubject(before + after, subjectId)
  {
    var p := BelongsTo(subjectId);
    FilterAppend(before + [other], after, p);
    FilterAppend(before, [other], p);
    FilterAppend(before, after, p);
    assert Filter([other], p) == [];
  }

  /** The update `toggleSubtopic` sends: the row's id and the negation of
      the completion it was shown with. */
  datatype CompletedUpdate = CompletedUpdate(id: string, completed: bool)

  function ToggleUpdate(st: Subtopic): (u: CompletedUpdate)
    ensures u.id == st.id && u.completed == !st.completed
  {
    CompletedUpdate(st.id, !st.completed)
  }

  /** The row the update produces when it is applied to the row it was
      made from. */
  function Apply(st: Subtopic, u: CompletedUpdate): (r: Subtopic)
    requires u.id == st.id
    ensures r.id == st.id && r.subjectId == st.subjectId && r.name == st.name
    ensures r.completed == u.completed
  {
    st.(completed := u.completed)
  }

  /** Toggling flips the row's completion and nothing else; toggling twice
      gives the row back. */
  lemma ToggleTwice(st: Subtopic)
    ensures Apply(st, ToggleUpdate(st)).completed != st.completed
    ensures Apply(Apply(st, ToggleUpdate(st)), ToggleUpdate(Apply(st, ToggleUpdate(st)))) == st
  {
  }

  /** The answer to a `select` on a table: an error, or data that may be
      absent. */
  datatype Query<T> = QueryFailed | QueryOk(data: Option<seq<T>>)

  /** What a page's list holds after a reload (`fetchSubtopics`,
      `fetchSubjects`, `fetchSessions`): on an error the list is kept (the
      page only shows a notice), otherwise it becomes the data, or empty
      when there is none (`data || []`). */
  function Reloaded<T>(current: seq<T>, q: Query<T>): (r: seq<T>)
    ensures q.QueryFailed? ==> r == current
    ensures q.QueryOk? && q.data.None? ==> r == []
    ensures q.QueryOk? && q.data.Some? ==> r == q.data.value
  {
    match q
    case QueryFailed => current
    case QueryOk(data) => if data.Some? then data.value else []
  }
}
