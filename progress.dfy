/** The completion figures of the Progress page (src/pages/Progress.tsx):
    each subject's share of completed subtopics and the overall share of
    completed study sessions, as percentages. Percentages are exact reals;
    the page hands them to a progress bar. */
module Progress {
  import opened Wrappers
  import opened StudyData

  /** `getSubjectProgress`: 0 for a subject without subtopics, otherwise the
      completed share of its subtopics times 100. */
  function SubjectProgress(subtopics: seq<Subtopic>, subjectId: string): (p: real)
    ensures 0.0 <= p <= 100.0
  {
    var mine := ForSubject(subtopics, subjectId);
    if |mine| == 0 then 0.0
    else Percent(CompletedCount(mine), |mine|)
  }

  /** `part / whole * 100` for a non-zero whole. */
  function Percent(part: nat, whole: nat): (p: real)
    requires 0 < whole
    ensures p * whole as real == part as real * 100.0
    ensures part <= whole ==> 0.0 <= p <= 100.0
    ensures part <= whole ==> (p == 100.0 <==> part == whole)
    ensures p == 0.0 <==> part == 0
  {
    (part as real / whole as real) * 100.0
  }

  /** A subject without subtopics shows 0; otherwise its figure times the
      number of its subtopics is 100 times the number completed. */
  lemma SubjectProgressShare(subtopics: seq<Subtopic>, subjectId: string)
    ensures |ForSubject(subtopics, subjectId)| == 0 ==> SubjectProgress(subtopics, subjectId) == 0.0
    ensures |ForSubject(subtopics, subjectId)| > 0 ==>
      SubjectProgress(subtopics, subjectId) * |ForSubject(subtopics, subjectId)| as real
        == CompletedCount(ForSubject(subtopics, subjectId)) as real * 100.0
  {
  }

  /** A subject shows 100 exactly when it has subtopics and every one of
      them is completed. */
  lemma SubjectProgressComplete(subtopics: seq<Subtopic>, subjectId: string)
    ensures SubjectProgress(subtopics, subjectId) == 100.0 <==>
      && (exists k :: 0 <= k < |subtopics| && subtopics[k].subjectId == subjectId)
      && (forall k :: 0 <= k < |subtopics| && subtopics[k].subjectId == subjectId ==> subtopics[k].completed)
  {
    var mine := ForSubject(subtopics, subjectId);
    CompletedCountOfSubject(subtopics, subjectId);
    HasSubtopics(subtopics, subjectId);
    assert SubjectProgress(subtopics, subjectId) == 100.0
       <==> |mine| > 0 && CompletedCount(mine) == |mine|;
  }

  /** A subject has subtopics in its filtered list exactly when some row of
      the whole list belongs to it. */
  lemma HasSubtopics(subtopics: seq<Subtopic>, subjectId: string)
    ensures |ForSubject(subtopics, subjectId)| > 0
        <==> exists k :: 0 <= k < |subtopics| && subtopics[k].subjectId == subjectId
  {
    var src := ForSubjectSelects(subtopics, subjectId);
    if |ForSubject(subtopics, subjectId)| > 0 {
      assert src[0] < |subtopics| && subtopics[src[0]].subjectId == subjectId;
    } else {
      forall k | 0 <= k < |subtopics| ensures subtopics[k].subjectId != subjectId {
        assert k !in src;
      }
    }
  }

  /** Adding another subject's subtopic anywhere in the list leaves a
      subject's figure as it was. */
  lemma SubjectProgressIgnoresOthers(before: seq<Subtopic>, other: Subtopic, after: seq<Subtopic>, subjectId: string)
    requires other.subjectId != subjectId
    ensures SubjectProgress(before + [other] + after, subjectId) == SubjectProgress(before + after, subjectId)
  {
    ForSubjectIgnoresOthers(before, other, after, subjectId);
  }

  /** The session counts the page shows (lines 22-26). */
  datatype SessionStats = SessionStats(total: nat, completed: nat, thisWeek: nat)

  /** `rows?.length || 0`: the number of rows a query returned, 0 when it
      returned no data. */
  function CountOrZero<T>(rows: Option<seq<T>>): (n: nat)
    ensures rows.None? ==> n == 0
    ensures rows.Some? ==> n == |rows.value|
  {
    if rows.Some? then |rows.value| else 0
  }

  /** The statistics built from the three session queries' results. */
  function Stats<T>(all: Option<seq<T>>, completed: Option<seq<T>>, thisWeek: Option<seq<T>>): (s: SessionStats)
    ensures all.None? ==> s.total == 0
    ensures completed.None? ==> s.completed == 0
    ensures thisWeek.None? ==> s.thisWeek == 0
    ensures all.Some? ==> s.total == |all.value|
    ensures completed.Some? ==> s.completed == |completed.value|
    ensures thisWeek.Some? ==> s.thisWeek == |thisWeek.value|
  {
    SessionStats(CountOrZero(all), CountOrZero(completed), CountOrZero(thisWeek))
  }

  /** `overallProgress`: 0 without sessions, otherwise the completed share of
      all sessions times 100. */
  function OverallProgress(stats: SessionStats): (p: real)
    ensures stats.total == 0 ==> p == 0.0
    ensures stats.total > 0 ==> p * stats.total as real == stats.completed as real * 100.0
  {
    if stats.total > 0 then Percent(stats.completed, stats.total) else 0.0
  }

  /** The overall figure lies between 0 and 100 when no more sessions are
      completed than exist (the two counts come from separate queries, so
      nothing in the page itself guarantees this), and is 100 exactly when
      there are sessions and all of them are completed. */
  lemma OverallProgressBounds(stats: SessionStats)
    requires stats.completed <= stats.total
    ensures 0.0 <= OverallProgress(stats) <= 100.0
    ensures OverallProgress(stats) == 100.0 <==> 0 < stats.total == stats.completed
  {
  }

  /** When the query for all sessions returns no data, the overall figure is
      0 whatever the other two queries returned. */
  lemma MissingSessionsShowZero<T>(completed: Option<seq<T>>, thisWeek: Option<seq<T>>)
    ensures OverallProgress(Stats(None, completed, thisWeek)) == 0.0
  {
  }
}
