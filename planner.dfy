/** The state of the Planner page (src/pages/Planner.tsx) and the rules it
    applies: the required fields of a new study session, the normalisation
    of its subject, toggling a session's completion, which sessions are
    shown as overdue, and generating subtopics. Each backend call is
    answered by a field of `Backend`. */
module Planner {
  import opened Wrappers
  import opened Text
  import opened StudyData
  import opened AiClient

  /** A row of the `study_sessions` table (lines 18-27). Dates are
      `YYYY-MM-DD` strings, times `HH:MM` strings. */
  datatype StudySession = StudySession(
    id: string, title: string, date: string, startTime: string, endTime: string,
    completed: bool, subjectId: Option<string>)

  /** The new-session form; an unselected subject is the empty string. */
  datatype SessionForm = SessionForm(
    title: string, date: string, startTime: string, endTime: string, subjectId: string)

  const EmptyForm := SessionForm("", "", "", "", "")

  /** The row `addSession` asks the backend to insert. */
  datatype SessionInsert = SessionInsert(
    title: string, date: string, startTime: string, endTime: string,
    subjectId: Option<string>, userId: string)

  /** How `addSession` ends: the form is rejected, there is no user, the
      insert fails, or the session is scheduled. */
  datatype AddOutcome = Rejected | NoUser | InsertFailed(row: SessionInsert) | Scheduled(row: SessionInsert)

  /** The backend's answers: the signed-in user, whether an insert or update
      fails, what the subtopic service returns for a subject name, and what
      the sessions reload returns. */
  datatype Backend = Backend(
    user: Option<string>,
    insertFails: SessionInsert -> bool,
    updateFails: CompletedUpdate -> bool,
    invoke: string -> Invocation,
    insertGenerated: seq<Row> -> Option<Fault>,
    sessionsQuery: Query<StudySession>)

  /** Some required field is empty. Title, date and both times are required;
      the subject is not. Only the empty string counts as missing: a field
      of spaces is accepted. */
  predicate MissingRequired(f: SessionForm) {
    f.title == "" || f.date == "" || f.startTime == "" || f.endTime == ""
  }

  /** `subject_id || null`: an unselected subject is stored as null. */
  function NullIfEmpty(s: string): (o: Option<string>)
    ensures o.None? <==> s == ""
    ensures o.Some? ==> o.value == s
  {
    if s == "" then None else Some(s)
  }

  /** How the form shows a stored subject: null as unselected. */
  function FormValue(o: Option<string>): string {
    if o.Some? then o.value else ""
  }

  /** The row for a form: the four required fields as typed, the subject
      normalised, and the user's id. */
  function ToInsert(f: SessionForm, userId: string): (r: SessionInsert)
    ensures r.title == f.title && r.date == f.date && r.startTime == f.startTime && r.endTime == f.endTime
    ensures r.subjectId.None? <==> f.subjectId == ""
    ensures r.subjectId.Some? ==> r.subjectId.value == f.subjectId
    ensures r.userId == userId
  {
    SessionInsert(f.title, f.date, f.startTime, f.endTime, NullIfEmpty(f.subjectId), userId)
  }

  /** The form a row was made from. */
  function FormOf(r: SessionInsert): SessionForm {
    SessionForm(r.title, r.date, r.startTime, r.endTime, FormValue(r.subjectId))
  }

  /** Nothing in the form is lost or altered on the way to the row, and the
      normalisation is undone exactly for the rows it can produce (a stored
      subject is never the empty string). */
  lemma ToInsertRoundTrip(f: SessionForm, r: SessionInsert, userId: string)
    ensures FormOf(ToInsert(f, userId)) == f
    ensures r.subjectId != Some("") ==> ToInsert(FormOf(r), r.userId) == r
    ensures ToInsert(f, userId).subjectId != Some("")
  {
  }

  /** The update `toggleSession` sends: the session's id and the negation of
      the completion it was shown with. It is the same update the Subjects
      page sends for a subtopic (`StudyData.ToggleUpdate`), over a session. */
  function SessionToggle(s: StudySession): (u: CompletedUpdate)
    ensures u.id == s.id && u.completed == !s.completed
  {
    CompletedUpdate(s.id, !s.completed)
  }

  /** `session.date < today`. */
  predicate IsPast(s: StudySession, today: string) {
    LexLess(s.date, today)
  }

  /** A session is marked overdue when it is past and not completed. */
  predicate IsOverdue(s: StudySession, today: string) {
    IsPast(s, today) && !s.completed
  }

  /** A completed session is never overdue, and no session is overdue on its
      own date. */
  lemma NeverOverdueWhenDoneOrToday(s: StudySession, today: string)
    ensures s.completed ==> !IsOverdue(s, today)
    ensures !IsOverdue(s, s.date)
  {
    LexLessTrichotomy(s.date, s.date);
  }

  /** Once overdue, a session stays overdue as the day moves on, until it is
      completed. */
  lemma OverdueStaysOverdue(s: StudySession, today: string, later: string)
    requires IsOverdue(s, today) && LexLess(today, later)
    ensures IsOverdue(s, later)
  {
    LexLessTransitive(s.date, today, later);
  }

  /** A `YYYY-MM-DD` date string. */
  predicate IsIsoDate(d: string) {
    && |d| == 10 && d[4] == '-' && d[7] == '-'
    && (forall i :: 0 <= i < 4 ==> IsDigit(d[i]))
    && IsDigit(d[5]) && IsDigit(d[6]) && IsDigit(d[8]) && IsDigit(d[9])
  }

  predicate IsDigit(c: char) {
    '0' <= c <= '9'
  }

  predicate AllDigits(s: string) {
    forall i :: 0 <= i < |s| ==> IsDigit(s[i])
  }

  function Pow10(n: nat): (p: nat)
    ensures p >= 1
  {
    if n == 0 then 1 else 10 * Pow10(n - 1)
  }

  /** The value of a decimal digit. */
  function DigitValue(c: char): (d: nat)
    requires IsDigit(c)
    ensures d <= 9
  {
    (c as int) - ('0' as int)
  }

  /** The number a string of decimal digits spells. */
  function DigitsValue(s: string): nat
    requires AllDigits(s)
  {
    if s == [] then 0
    else DigitValue(s[0]) * Pow10(|s| - 1) + DigitsValue(s[1..])
  }

  lemma MulLeft(a: nat, b: nat, p: nat)
    requires a <= b
    ensures a * p <= b * p
  {
  }

  /** A string of `n` digits spells a number below `10^n`. */
  lemma {:induction false} DigitsValueBound(s: string)
    requires AllDigits(s)
    ensures DigitsValue(s) < Pow10(|s|)
  {
    if s != [] {
      var d, p, r := DigitValue(s[0]), Pow10(|s| - 1), DigitsValue(s[1..]);
      DigitsValueBound(s[1..]);
      assert DigitsValue(s) == d * p + r;
      assert Pow10(|s|) == 10 * p;
      MulLeft(d + 1, 10, p);
      MulSucc(d, p);
    }
  }

  lemma MulSucc(a: nat, p: nat)
    ensures (a + 1) * p == a * p + p
  {
  }

  /** A date's eight digits read as the number YYYYMMDD, which orders dates
      by year, then month, then day. */
  function DayNumber(d: string): nat
    requires IsIsoDate(d)
  {
    DigitsValue(d[..4] + d[5..7] + d[8..])
  }

  /** Comparing numbers written with a leading digit in the same place:
      the leading digits decide unless they are equal. */
  lemma PlaceValueOrder(dx: nat, dy: nat, rx: nat, ry: nat, p: nat)
    requires rx < p && ry < p
    ensures dx < dy ==> dx * p + rx < dy * p + ry
    ensures dx == dy ==> (dx * p + rx < dy * p + ry <==> rx < ry)
  {
    if dx < dy {
      MulLeft(dx + 1, dy, p);
    }
  }

  /** For digit strings of one length, string order is numeric order. */
  lemma {:induction false} DigitsOrder(x: string, y: string)
    requires |x| == |y| && AllDigits(x) && AllDigits(y)
    ensures LexLess(x, y) <==> DigitsValue(x) < DigitsValue(y)
  {
    if x != [] {
      assert LexLess(x, y) == if x[0] != y[0] then x[0] < y[0] else LexLess(x[1..], y[1..]);
      DigitCompare(x[0], y[0]);
      LeadingDigitDecides(x, y);
      if x[0] == y[0] {
        DigitsOrder(x[1..], y[1..]);
      }
    }
  }

  /** Two digit strings of one length compare by their leading digits, and
      on equal leading digits by the rest. */
  lemma LeadingDigitDecides(x: string, y: string)
    requires |x| == |y| > 0 && AllDigits(x) && AllDigits(y)
    ensures var dx, dy := DigitValue(x[0]), DigitValue(y[0]);
      DigitsValue(x) < DigitsValue(y) <==>
        dx < dy || (dx == dy && DigitsValue(x[1..]) < DigitsValue(y[1..]))
  {
    DigitsValueBound(x[1..]);
    DigitsValueBound(y[1..]);
    PlaceValueCompare(DigitValue(x[0]), DigitValue(y[0]), DigitsValue(x[1..]), DigitsValue(y[1..]),
                      Pow10(|x| - 1), DigitsValue(x), DigitsValue(y));
  }

  /** Two numbers written with a leading digit at the same place compare by
      that digit first, then by the rest. */
  lemma PlaceValueCompare(dx: nat, dy: nat, rx: nat, ry: nat, p: nat, vx: nat, vy: nat)
    requires rx < p && ry < p
    requires vx == dx * p + rx && vy == dy * p + ry
    ensures vx < vy <==> dx < dy || (dx == dy && rx < ry)
  {
    PlaceValueOrder(dx, dy, rx, ry, p);
    PlaceValueOrder(dy, dx, ry, rx, p);
  }

  /** Digits compare as their values do. */
  lemma DigitCompare(a: char, b: char)
    requires IsDigit(a) && IsDigit(b)
    ensures a < b <==> DigitValue(a) < DigitValue(b)
    ensures a == b <==> DigitValue(a) == DigitValue(b)
  {
  }

  /** Dropping the separators of two strings split alike does not change
      how they compare. */
  lemma DashesDoNotMatter(a1: string, a2: string, a3: string, b1: string, b2: string, b3: string)
    requires |a1| == |b1| && |a2| == |b2|
    ensures LexLess(a1 + ("-" + (a2 + ("-" + a3))), b1 + ("-" + (b2 + ("-" + b3))))
        <==> LexLess(a1 + (a2 + a3), b1 + (b2 + b3))
  {
    LexLessTrichotomy("-", "-");
    LexLessAppend("-", "-", a3, b3);
    LexLessAppend(a2, b2, "-" + a3, "-" + b3);
    LexLessAppend(a2, b2, a3, b3);
    LexLessAppend("-", "-", a2 + ("-" + a3), b2 + ("-" + b3));
    LexLessAppend(a1, b1, "-" + (a2 + ("-" + a3)), "-" + (b2 + ("-" + b3)));
    LexLessAppend(a1, b1, a2 + a3, b2 + b3);
  }

  /** For well-formed dates, the page's string comparison is the calendar
      order: a session is past exactly when its date comes before today's. */
  lemma IsoDateOrder(a: string, b: string)
    requires IsIsoDate(a) && IsIsoDate(b)
    ensures LexLess(a, b) <==> DayNumber(a) < DayNumber(b)
  {
    var a1, a2, a3 := a[..4], a[5..7], a[8..];
    var b1, b2, b3 := b[..4], b[5..7], b[8..];
    assert a == a1 + ("-" + (a2 + ("-" + a3)));
    assert b == b1 + ("-" + (b2 + ("-" + b3)));
    DashesDoNotMatter(a1, a2, a3, b1, b2, b3);
    var da, db := a1 + a2 + a3, b1 + b2 + b3;
    assert da == a1 + (a2 + a3) && db == b1 + (b2 + b3);
    assert AllDigits(da) by {
      forall i | 0 <= i < 8 ensures IsDigit(da[i]) {
        if i < 4 { assert da[i] == a[i]; }
        else if i < 6 { assert da[i] == a[i + 1]; }
        else { assert da[i] == a[i + 2]; }
      }
    }
    assert AllDigits(db) by {
      forall i | 0 <= i < 8 ensures IsDigit(db[i]) {
        if i < 4 { assert db[i] == b[i]; }
        else if i < 6 { assert db[i] == b[i + 1]; }
        else { assert db[i] == b[i + 2]; }
      }
    }
    DigitsOrder(da, db);
  }

  class PlannerPage {
    var sessions: seq<StudySession>
    var newSession: SessionForm
    var dialogOpen: bool
    var generating: bool
    /** Every value `setGeneratingSubtopics` has been given, in order. */
    ghost var generatingHistory: seq<bool>

    /** The flag holds the last value it was set to, and starts cleared. */
    ghost predicate Valid()
      reads this
    {
      generating == (generatingHistory != [] && generatingHistory[|generatingHistory| - 1])
    }

    /** The page's initial state (lines 30-40). */
    constructor ()
      ensures Valid()
      ensures sessions == [] && newSession == EmptyForm && !dialogOpen
      ensures !generating && generatingHistory == []
    {
      sessions := [];
      newSession := EmptyForm;
      dialogOpen, generating := false, false;
      generatingHistory := [];
    }

    method SetGenerating(value: bool)
      modifies this`generating, this`generatingHistory
      ensures Valid()
      ensures generating == value && generatingHistory == old(generatingHistory) + [value]
    {
      generating := value;
      generatingHistory := generatingHistory + [value];
    }

    /** `addSession`: a form with an empty required field is rejected and
        nothing is sent; without a user nothing is sent; otherwise the row is
        sent, and on success the form is reset, the dialog closed and the
        sessions reloaded. Any other outcome leaves the page as it was. */
    method AddSession(backend: Backend) returns (outcome: AddOutcome)
      requires Valid()
      modifies this`newSession, this`dialogOpen, this`sessions
      ensures Valid()
      ensures outcome.Rejected? <==> MissingRequired(old(newSession))
      ensures outcome.NoUser? <==> !MissingRequired(old(newSession)) && backend.user.None?
      ensures outcome.InsertFailed? || outcome.Scheduled? ==>
        && outcome.row == ToInsert(old(newSession), backend.user.value)
        && (outcome.Scheduled? <==> !backend.insertFails(outcome.row))
      ensures outcome.Scheduled? ==>
        newSession == EmptyForm && !dialogOpen && sessions == Reloaded(old(sessions), backend.sessionsQuery)
      ensures !outcome.Scheduled? ==>
        newSession == old(newSession) && dialogOpen == old(dialogOpen) && sessions == old(sessions)
    {
      if MissingRequired(newSession) {
        return Rejected;
      }
      if backend.user.None? {
        return NoUser;
      }
      var row := ToInsert(newSession, backend.user.value);
      if backend.insertFails(row) {
        return InsertFailed(row);
      }
      newSession := EmptyForm;
      dialogOpen := false;
      sessions := Reloaded(sessions, backend.sessionsQuery);
      outcome := Scheduled(row);
    }

    /** `toggleSession`: the update negates the completion the session was
        shown with; on success the sessions are reloaded, and the page
        congratulates exactly when a pending session was completed. */
    method ToggleSession(s: StudySession, backend: Backend) returns (sent: CompletedUpdate, celebrate: bool)
      requires Valid()
      modifies this`sessions
      ensures Valid()
      ensures sent == SessionToggle(s)
      ensures celebrate <==> !backend.updateFails(sent) && sent.completed
      ensures sessions == if backend.updateFails(sent) then old(sessions)
                          else Reloaded(old(sessions), backend.sessionsQuery)
    {
      sent := SessionToggle(s);
      celebrate := false;
      if !backend.updateFails(sent) {
        celebrate := !s.completed;
        sessions := Reloaded(sessions, backend.sessionsQuery);
      }
    }

    /** `generateSubtopicsWithAI`: the flag is raised, the generation runs,
        and the flag is cleared whatever happened. Unlike the Subjects page,
        nothing is reloaded afterwards. */
    method GenerateSubtopicsWithAI(subjectId: string, subjectName: string, backend: Backend)
      returns (g: Generation)
      modifies this`generating, this`generatingHistory
      ensures Valid() && !generating
      ensures generatingHistory == old(generatingHistory) + [true, false]
      ensures g == Generate(backend.invoke(subjectName), subjectId, backend.insertGenerated)
    {
      SetGenerating(true);
      g := Generate(backend.invoke(subjectName), subjectId, backend.insertGenerated);
      SetGenerating(false);
    }
  }
}
