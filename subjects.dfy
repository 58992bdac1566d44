/** The state of the Subjects page (src/pages/Subjects.tsx) and the handlers
    that change it: adding a subject (which then asks the subtopic service
    for subtopics), adding a subtopic, toggling a subtopic and generating
    subtopics. Each backend call is answered by a field of `Backend`; the
    page's notices are returned as values. */
module Subjects {
  import opened Wrappers
  import opened Text
  import opened JsonValues
  import opened StudyData
  import opened AiClient

  /** A row of the `subjects` table, as the page uses it. */
  datatype Subject = Subject(id: string, name: string)

  /** The row `addSubject` asks the backend to insert. */
  datatype SubjectInsert = SubjectInsert(name: string, userId: string)

  /** The row `addSubtopic` asks the backend to insert. */
  datatype SubtopicInsert = SubtopicInsert(name: string, subjectId: string)

  /** The backend's answers: the signed-in user, if any; the created subject
      for an insert (none on an error); whether an insert or update fails;
      what the subtopic service returns for a subject name; and what the
      reloads return. */
  datatype Backend = Backend(
    user: Option<string>,
    insertSubject: SubjectInsert -> Option<Subject>,
    insertSubtopicFails: SubtopicInsert -> bool,
    updateFails: CompletedUpdate -> bool,
    invoke: string -> Invocation,
    insertGenerated: seq<Row> -> Option<Fault>,
    subjectsQuery: Query<Subject>,
    subtopicsQuery: Query<Subtopic>)

  class SubjectsPage {
    var subjects: seq<Subject>
    var subtopics: seq<Subtopic>
    var newSubject: string
    var newSubtopic: string
    var dialogOpen: bool
    var generating: bool
    /** Every value `setGeneratingSubtopics` has been given, in order. */
    ghost var generatingHistory: seq<bool>

    /** The flag holds the last value it was set to, and starts cleared. */
    ghost predicate Valid()
      reads this
    {
      generating == (generatingHistory != [] && generatingHistory[|generatingHistory| - 1])
    }

    /** The page's initial state (lines 25-31). */
    constructor ()
      ensures Valid()
      ensures subjects == [] && subtopics == [] && newSubject == "" && newSubtopic == ""
      ensures !dialogOpen && !generating && generatingHistory == []
    {
      subjects, subtopics := [], [];
      newSubject, newSubtopic := "", "";
      dialogOpen, generating := false, false;
      generatingHistory := [];
    }

    method SetGenerating(value: bool)
      modifies this`generating, this`generatingHistory
      ensures Valid()
      ensures generating == value && generatingHistory == old(generatingHistory) + [value]
    {
      generating := value;
      generatingHistory := generatingHistory + [value];
    }

    /** `generateSubtopicsWithAI`: the flag is raised, the generation runs,
        and the flag is cleared whatever happened; after a success the
        subtopics are reloaded. */
    method GenerateSubtopicsWithAI(subjectId: string, subjectName: string, backend: Backend)
      returns (g: Generation)
      modifies this`generating, this`generatingHistory, this`subtopics
      ensures Valid() && !generating
      ensures generatingHistory == old(generatingHistory) + [true, false]
      ensures g == Generate(backend.invoke(subjectName), subjectId, backend.insertGenerated)
      ensures subtopics == if g.notice.Some? && g.notice.value.Generated?
                           then Reloaded(old(subtopics), backend.subtopicsQuery)
                           else old(subtopics)
    {
      SetGenerating(true);
      g := Generate(backend.invoke(subjectName), subjectId, backend.insertGenerated);
      if g.notice.Some? && g.notice.value.Generated? {
        subtopics := Reloaded(subtopics, backend.subtopicsQuery);
      }
      SetGenerating(false);
    }

    /** `addSubject`: a blank name (empty or only whitespace) or a missing
        user does nothing; otherwise the name is inserted as typed, not
        trimmed, and a successful insert continues as `SubjectCreated`. */
    method AddSubject(backend: Backend) returns (sent: Option<SubjectInsert>, g: Option<Generation>)
      requires Valid()
      modifies this
      ensures Valid()
      ensures sent.Some? <==> !IsBlank(old(newSubject)) && backend.user.Some?
      ensures sent.Some? ==> sent.value == SubjectInsert(old(newSubject), backend.user.value)
      ensures g.Some? <==> sent.Some? && backend.insertSubject(sent.value).Some?
      ensures g.None? ==>
        && newSubject == old(newSubject) && dialogOpen == old(dialogOpen) && subjects == old(subjects)
        && subtopics == old(subtopics) && generating == old(generating)
        && generatingHistory == old(generatingHistory)
      ensures g.Some? ==> Created(backend, backend.insertSubject(sent.value).value, g.value,
                                  old(subjects), old(subtopics), old(generatingHistory))
      ensures newSubtopic == old(newSubtopic)
    {
      sent, g := None, None;
      if Trim(newSubject) != [] && backend.user.Some? {
        var row := SubjectInsert(newSubject, backend.user.value);
        sent := Some(row);
        var created := backend.insertSubject(row);
        if created.Some? {
          var generation := SubjectCreated(created.value, backend);
          g := Some(generation);
        }
      }
    }

    /** The state after a subject was created: the field is cleared, the
        dialog closed, the subjects reloaded, and subtopics generated for the
        new subject under its stored name. */
    ghost predicate Created(backend: Backend, created: Subject, g: Generation,
                            subjects0: seq<Subject>, subtopics0: seq<Subtopic>, history0: seq<bool>)
      reads this
    {
      && newSubject == "" && !dialogOpen && !generating
      && subjects == Reloaded(subjects0, backend.subjectsQuery)
      && generatingHistory == history0 + [true, false]
      && g == Generate(backend.invoke(created.name), created.id, backend.insertGenerated)
      && subtopics == if g.notice.Some? && g.notice.value.Generated?
                      then Reloaded(subtopics0, backend.subtopicsQuery)
                      else subtopics0
    }

    /** What `addSubject` does once the insert returned the new subject
        (lines 119-127). */
    method SubjectCreated(created: Subject, backend: Backend) returns (g: Generation)
      modifies this`newSubject, this`dialogOpen, this`subjects, this`generating,
               this`generatingHistory, this`subtopics
      ensures Valid()
      ensures Created(backend, created, g, old(subjects), old(subtopics), old(generatingHistory))
    {
      newSubject := "";
      dialogOpen := false;
      subjects := Reloaded(subjects, backend.subjectsQuery);
      g := GenerateSubtopicsWithAI(created.id, created.name, backend);
    }

    /** `addSubtopic`: blank text does nothing; otherwise the text is
        inserted as typed for the subject, and on success the field is
        cleared and the subtopics reloaded. */
    method AddSubtopic(subjectId: string, backend: Backend) returns (sent: Option<SubtopicInsert>)
      modifies this`newSubtopic, this`subtopics
      ensures sent.Some? <==> !IsBlank(old(newSubtopic))
      ensures sent.Some? ==> sent.value == SubtopicInsert(old(newSubtopic), subjectId)
      ensures if sent.Some? && !backend.insertSubtopicFails(sent.value)
              then newSubtopic == "" && subtopics == Reloaded(old(subtopics), backend.subtopicsQuery)
              else newSubtopic == old(newSubtopic) && subtopics == old(subtopics)
    {
      sent := None;
      if Trim(newSubtopic) == [] {
        return;
      }
      sent := Some(SubtopicInsert(newSubtopic, subjectId));
      if backend.insertSubtopicFails(sent.value) {
        return;
      }
      newSubtopic := "";
      subtopics := Reloaded(subtopics, backend.subtopicsQuery);
    }

    /** `toggleSubtopic`: the update negates the completion the row was shown
        with; on success the subtopics are reloaded. */
    method ToggleSubtopic(st: Subtopic, backend: Backend) returns (sent: CompletedUpdate)
      modifies this`subtopics
      ensures sent == ToggleUpdate(st)
      ensures subtopics == if backend.updateFails(sent) then old(subtopics)
                           else Reloaded(old(subtopics), backend.subtopicsQuery)
    {
      sent := ToggleUpdate(st);
      if !backend.updateFails(sent) {
        subtopics := Reloaded(subtopics, backend.subtopicsQuery);
      }
    }
  }
}
