/** What the Subjects and Planner pages do with the subtopic service's answer
    in `generateSubtopicsWithAI` (src/pages/Subjects.tsx lines 63-100,
    src/pages/Planner.tsx lines 64-99): turn the returned names into rows
    for the `subtopics` table, insert them, and pick the notice to show.
    The backend is reached through values: the invocation's result and the
    insert's answer. */
module AiClient {
  import opened Wrappers
  import opened Text
  import opened JsonValues

  /** An error object thrown inside the `try`; its `message` may be absent. */
  datatype Fault = Fault(message: Option<string>)

  /** What `supabase.functions.invoke` resolves to: a data payload and an
      error, either of which may be absent. */
  datatype Invocation = Invocation(data: Option<Json>, error: Option<Fault>)

  /** A row to insert: the generated value as its name (the page does not
      check that it is a string) and the subject it belongs to. */
  datatype Row = Row(name: Json, subjectId: string)

  /** The notice the page shows when a generation finishes. */
  datatype Notice = Generated(count: nat) | RateLimited | CreditsDepleted | GenerationFailed

  const RateLimitToast: string := "Rate limit exceeded. Please try again later."
  const CreditsToast: string := "AI credits depleted. Please add credits to continue."
  const GenericToast: string := "Error generating subtopics"

  /** What one generation did: the rows handed to the insert, if it got that
      far, and the notice shown, if any. */
  datatype Generation = Generation(inserted: Option<seq<Row>>, notice: Option<Notice>)

  /** The error toast for a caught error: a message mentioning "429" wins
      over one mentioning "402"; an absent message gets the generic toast. */
  function Classify(message: Option<string>): (n: Notice)
    ensures !n.Generated?
    ensures n.RateLimited? <==> message.Some? && Contains(message.value, "429")
    ensures n.CreditsDepleted? <==>
      message.Some? && !Contains(message.value, "429") && Contains(message.value, "402")
    ensures n.GenerationFailed? <==>
      message.None? || (!Contains(message.value, "429") && !Contains(message.value, "402"))
  {
    if message.Some? && Contains(message.value, "429") then RateLimited
    else if message.Some? && Contains(message.value, "402") then CreditsDepleted
    else GenerationFailed
  }

  /** The text of an error notice. */
  function ErrorToast(n: Notice): (t: string)
    requires !n.Generated?
    ensures n.RateLimited? ==> t == RateLimitToast
    ensures n.CreditsDepleted? ==> t == CreditsToast
    ensures n.GenerationFailed? ==> t == GenericToast
    ensures t == RateLimitToast || t == CreditsToast || t == GenericToast
  {
    match n
    case RateLimited => RateLimitToast
    case CreditsDepleted => CreditsToast
    case GenerationFailed => GenericToast
  }

  /** `data?.subtopics && Array.isArray(data.subtopics)`: the items, when the
      payload is an object whose `subtopics` member is an array. */
  function SubtopicItems(data: Option<Json>): (r: Option<seq<Json>>)
    ensures r.Some? <==> data.Some? && Get(data.value, "subtopics").Some?
                         && Get(data.value, "subtopics").value.JArray?
    ensures r.Some? ==> Get(data.value, "subtopics").value == JArray(r.value)
  {
    if data.Some? then
      match Get(data.value, "subtopics")
      case Some(JArray(items)) => Some(items)
      case _ => None
    else None
  }

  /** `subtopics.map(name => ({ name, subject_id }))`. */
  function RowsFor(names: seq<Json>, subjectId: string): (rows: seq<Row>)
    ensures |rows| == |names|
    ensures forall k :: 0 <= k < |rows| ==> rows[k].name == names[k] && rows[k].subjectId == subjectId
  {
    if names == [] then []
    else [Row(names[0], subjectId)] + RowsFor(names[1..], subjectId)
  }

  /** The names carried by a list of rows. */
  function NamesOf(rows: seq<Row>): (names: seq<Json>)
    ensures |names| == |rows|
    ensures forall k :: 0 <= k < |rows| ==> names[k] == rows[k].name
  {
    if rows == [] then []
    else [rows[0].name] + NamesOf(rows[1..])
  }

  /** The rows give back exactly the generated names, in order: none is
      lost, added or moved. */
  lemma NamesOfRowsFor(names: seq<Json>, subjectId: string)
    ensures NamesOf(RowsFor(names, subjectId)) == names
  {
  }

  /** Rows of one subject are rebuilt from their names: mapping is a
      bijection between names and one subject's rows. */
  lemma RowsForNamesOf(rows: seq<Row>, subjectId: string)
    requires forall k :: 0 <= k < |rows| ==> rows[k].subjectId == subjectId
    ensures RowsFor(NamesOf(rows), subjectId) == rows
  {
  }

  /** The `try`/`catch` body: an invocation error is thrown and classified;
      a payload without a `subtopics` array does nothing; otherwise the rows
      are inserted, an insert error is thrown and classified, and success
      reports how many names were generated. */
  function Generate(invocation: Invocation, subjectId: string, insertError: seq<Row> -> Option<Fault>): (g: Generation)
    ensures invocation.error.Some? ==>
      g == Generation(None, Some(Classify(invocation.error.value.message)))
    ensures invocation.error.None? && SubtopicItems(invocation.data).None? ==> g == Generation(None, None)
    ensures g.inserted.Some? <==> invocation.error.None? && SubtopicItems(invocation.data).Some?
    ensures g.inserted.Some? ==> g.inserted.value == RowsFor(SubtopicItems(invocation.data).value, subjectId)
    ensures g.inserted.Some? && insertError(g.inserted.value).Some? ==>
      g.notice == Some(Classify(insertError(g.inserted.value).value.message))
    ensures g.inserted.Some? && insertError(g.inserted.value).None? ==>
      g.notice == Some(Generated(|g.inserted.value|))
  {
    if invocation.error.Some? then Generation(None, Some(Classify(invocation.error.value.message)))
    else match SubtopicItems(invocation.data)
      case None => Generation(None, None)
      case Some(items) =>
        var rows := RowsFor(items, subjectId);
        match insertError(rows)
        case Some(fault) => Generation(Some(rows), Some(Classify(fault.message)))
        case None => Generation(Some(rows), Some(Generated(|items|)))
  }

  /** A success notice counts exactly the generated names, and every row
      inserted on the way carries the subject the generation was for. */
  lemma GeneratedCountsNames(invocation: Invocation, subjectId: string, insertError: seq<Row> -> Option<Fault>)
    requires Generate(invocation, subjectId, insertError).notice.Some?
    requires Generate(invocation, subjectId, insertError).notice.value.Generated?
    ensures SubtopicItems(invocation.data).Some?
    ensures Generate(invocation, subjectId, insertError).notice.value.count == |SubtopicItems(invocation.data).value|
    ensures NamesOf(Generate(invocation, subjectId, insertError).inserted.value) == SubtopicItems(invocation.data).value
    ensures forall r :: r in Generate(invocation, subjectId, insertError).inserted.value ==> r.subjectId == subjectId
  {
  }

  /** A failed invocation never reaches the insert, and its notice is never
      a success. */
  lemma FailedInvocationInsertsNothing(invocation: Invocation, subjectId: string,
                                       insertError: seq<Row> -> Option<Fault>)
    requires invocation.error.Some?
    ensures Generate(invocation, subjectId, insertError).inserted.None?
    ensures !Generate(invocation, subjectId, insertError).notice.value.Generated?
  {
  }

  /** An error message that mentions both codes is reported as a rate limit. */
  lemma RateLimitCheckedFirst(message: string)
    requires Contains(message, "402") && Contains(message, "429")
    ensures Classify(Some(message)) == RateLimited
    ensures ErrorToast(Classify(Some(message))) == RateLimitToast
  {
  }
}
