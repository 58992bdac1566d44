# Study planner: subtopic generation and progress rules

This project models the logic core of a study-planner web application. Students keep subjects, subtopics and study sessions. A server function asks an AI gateway for subtopics of a subject. The model covers four parts:

- **The `generate-subtopics` server function** (`GenerateSubtopics`, `SubtopicParser`). It answers the CORS preflight and checks that the gateway credential is configured. It then sends the chat request and classifies the gateway's failure statuses: 429 and 402 keep their status, anything else becomes a 500. Finally it turns the model's free-form answer into a list of names along one of three paths:
  - the span from the first `[` to the last `]`, handed to `JSON.parse`;
  - a marker-stripping fallback over the lines, used when there is no such span;
  - a length-filter fallback over the lines, used when the parse throws.
- **The Progress page** (`Progress`, over `StudyData`): each subject's completed share of its subtopics, and the overall completed share of study sessions. Both are computed as exact reals.
- **The Subjects page** (`Subjects.SubjectsPage`, over `StudyData` and `AiClient`):
  - the subtopics of a subject and how many are completed;
  - the blank-name guards of `addSubject` and `addSubtopic`;
  - toggling a subtopic;
  - `generateSubtopicsWithAI`: mapping the generated names to rows, classifying errors ("429" before "402"), and the `generatingSubtopics` flag that is raised and always cleared.
- **The Planner page** (`Planner.PlannerPage`):
  - the required fields of a new session, and storing an unselected subject as null;
  - the form reset after a successful insert;
  - toggling a session;
  - the overdue rule (date before today and not completed), with a proof that for `YYYY-MM-DD` strings the page's string comparison is the calendar order;
  - the same generation flow as the Subjects page.

How the external parts are modelled:

- JavaScript's string operations are modelled in `Text`: `trim`, `split('\n')`, `includes`, `startsWith` and string `<`.
- `JSON.parse` is a function parameter returning an option, where none means "it throws". Nothing is assumed about what it returns.
- The AI gateway is a function from the outbound chat request to its reply. So "the gateway is not called" is stated as "the response does not depend on the gateway".
- The backend (database inserts, updates, reloads, the signed-in user, the edge-function invocation) is a `Backend` value per page. Each of its fields answers one kind of call.
- The `generatingSubtopics` flag keeps a ghost history of every value it was set to. Each generation appends exactly `[true, false]`.

Details of the code's behaviour that the model keeps:

- **Dropped lines.** The marker fallback drops every line whose trimmed form starts with `[` or `]`, whatever follows the bracket.
- **Marker runs.** A marker run is stripped even when no whitespace follows it, so `3D Printing` becomes `D Printing` (`SubtopicParser.DigitPrefixIsStripped`).
- **Failed parse.** When the bracketed span fails to parse, the length-filter fallback is used.
- **Parsed span.** The parsed span is returned unchanged, whatever JSON value it is. Only the two fallbacks guarantee a list of non-empty trimmed strings.

## Model

| member | source | states |
|---|---|---|
| GenerateSubtopics.Handle | supabase/functions/generate-subtopics/index.ts:8-111 | A preflight answer exactly for OPTIONS requests; every error response has status 500, 429 or 402 |
| GenerateSubtopics.PreflightIgnoresEverything | supabase/functions/generate-subtopics/index.ts:9-11 | An OPTIONS request gets the empty preflight answer with only the CORS headers and status 200, whatever the body, credential, gateway or parser |
| GenerateSubtopics.Headers | supabase/functions/generate-subtopics/index.ts:3-6 | Every response starts with the CORS headers; only non-preflight responses add the JSON content type |
| GenerateSubtopics.Status | supabase/functions/generate-subtopics/index.ts:10-110 | An error response carries its explicit status (500, 429 or 402); every other response carries `new Response`'s default 200 (a definition, no contract) |
| GenerateSubtopics.KeyMissing | supabase/functions/generate-subtopics/index.ts:17 | `!LOVABLE_API_KEY`: the credential is absent or empty (a definition, no contract) |
| GenerateSubtopics.IsOk | supabase/functions/generate-subtopics/index.ts:44 | `response.ok`: the status is in 200-299 (a definition, no contract) |
| GenerateSubtopics.ContentMissing | supabase/functions/generate-subtopics/index.ts:67 | `!content`: the reply text is absent or empty (a definition, no contract) |
| GenerateSubtopics.OutboundRequest | supabase/functions/generate-subtopics/index.ts:23-42 | The gateway request carries the credential as bearer, the fixed model and system instruction, and a user instruction ending in the subject name verbatim |
| GenerateSubtopics.MissingKeyNeverCallsGateway | supabase/functions/generate-subtopics/index.ts:15-19 | An absent or empty credential gives 500 "LOVABLE_API_KEY is not configured", and the response is the same whatever the gateway or parser would do |
| GenerateSubtopics.UpstreamFailure | supabase/functions/generate-subtopics/index.ts:44-62 | A non-ok status maps to 429 with the rate-limit message, 402 with the credits message, otherwise 500 "AI gateway error" |
| GenerateSubtopics.UpstreamFailureIsClassified | supabase/functions/generate-subtopics/index.ts:44-62 | On a non-ok gateway reply the response follows that classification and does not depend on the parser |
| GenerateSubtopics.MissingContentIsAnError | supabase/functions/generate-subtopics/index.ts:64-69 | An ok reply with absent or empty content gives 500 "No content in AI response", never a list |
| GenerateSubtopics.SubtopicsOnlyFromContent | supabase/functions/generate-subtopics/index.ts:64-104 | Subtopics are returned exactly when every earlier check passed and the reply has text, and they are what the parser makes of that text |
| GenerateSubtopics.WholeArrayIsReturnedUnchanged | supabase/functions/generate-subtopics/index.ts:77-79 | Content that is exactly one bracketed array is parsed whole and returned unchanged |
| SubtopicParser.BracketSpan | supabase/functions/generate-subtopics/index.ts:77 | A span found is a match of the pattern in the content: it starts with `[` and ends with `]` |
| SubtopicParser.BracketSpanIsFirstMatch | supabase/functions/generate-subtopics/index.ts:77-78 | A span exists exactly when the pattern matches somewhere, and it is the leftmost-longest match: from the first `[` to the last `]` |
| SubtopicParser.SpanWithinBrackets | supabase/functions/generate-subtopics/index.ts:77 | Every match of the pattern lies between the first `[` and the last `]` |
| SubtopicParser.SpanExcludesProse | supabase/functions/generate-subtopics/index.ts:77-79 | Prose without brackets around a bracketed array is cut off: the span is exactly the array |
| SubtopicParser.NoBracketTakesMarkerPath | supabase/functions/generate-subtopics/index.ts:78-88 | Content without `[` always takes the marker fallback, whatever the parser would do |
| SubtopicParser.ParseSubtopics | supabase/functions/generate-subtopics/index.ts:74-97 | A successfully parsed span is returned unchanged; with no span the result is the marker fallback, an array of non-empty, trimmed strings; when the parse throws it is the length-filter fallback, an array of at most ten trimmed strings of at least three characters |
| SubtopicParser.IsMarker | supabase/functions/generate-subtopics/index.ts:86 | The character class `[-•*\d.]`: hyphen, bullet, asterisk, ASCII digit, full stop (a definition, no contract) |
| SubtopicParser.IsQuote | supabase/functions/generate-subtopics/index.ts:86 | The character class `["']` (a definition, no contract) |
| SubtopicParser.StripListMarker | supabase/functions/generate-subtopics/index.ts:86 | What remains is a suffix of the line; a line without a leading marker is unchanged; with one, something is removed and what remains does not start with whitespace |
| SubtopicParser.StripMarkerRun | supabase/functions/generate-subtopics/index.ts:86 | A run of marker characters is removed up to the first non-marker, together with the whitespace after it |
| SubtopicParser.StripListMarkerMatch | supabase/functions/generate-subtopics/index.ts:86 | Exactly the greedy match of the marker pattern is removed: a maximal marker run, then a maximal whitespace run; nothing without a leading marker |
| SubtopicParser.StripQuotes | supabase/functions/generate-subtopics/index.ts:86 | The result is the line with its first character removed exactly when that is a quote, and its last character removed exactly when that is a quote other than the one already removed; nothing else changes |
| SubtopicParser.StripQuotesOfLeading | supabase/functions/generate-subtopics/index.ts:86 | A quote at the front only is removed and the rest is kept |
| SubtopicParser.StripQuotesOfTrailing | supabase/functions/generate-subtopics/index.ts:86 | A quote at the back only is removed and the rest is kept; a lone quote gives the empty string |
| SubtopicParser.StripQuotesOfQuoted | supabase/functions/generate-subtopics/index.ts:86 | A quoted name loses exactly its two quotes, whatever it contains |
| SubtopicParser.StripQuotesOfUnquoted | supabase/functions/generate-subtopics/index.ts:86 | A name that neither starts nor ends with a quote is unchanged |
| SubtopicParser.CleanLine | supabase/functions/generate-subtopics/index.ts:86 | A cleaned line is always trimmed |
| SubtopicParser.CleanBulletedName | supabase/functions/generate-subtopics/index.ts:86 | Marker, optional whitespace, then a plain name cleans to the bare name |
| SubtopicParser.DigitPrefixIsStripped | supabase/functions/generate-subtopics/index.ts:86 | A leading digit is stripped even with no space after it: `3D Printing` gives `D Printing` |
| SubtopicParser.MarkerStep | supabase/functions/generate-subtopics/index.ts:84-87 | A kept line is non-empty and trimmed |
| SubtopicParser.MarkerFallback | supabase/functions/generate-subtopics/index.ts:82-87 | No more elements than the content has lines |
| SubtopicParser.MarkerFallbackLines | supabase/functions/generate-subtopics/index.ts:82-87 | Each element is a cleaned, non-empty, trimmed line of its own, in line order; a line is used exactly when its trimmed form is non-empty, does not start with a bracket and cleans to something non-empty; so there are no more elements than lines |
| SubtopicParser.MarkerFallbackElements | supabase/functions/generate-subtopics/index.ts:82-87 | Every element of the marker fallback is non-empty and trimmed |
| SubtopicParser.BulletedListFallback | supabase/functions/generate-subtopics/index.ts:82-87 | A list written one bulleted or numbered item per line comes out as exactly its names, in order |
| SubtopicParser.BulletedLine | supabase/functions/generate-subtopics/index.ts:84-87 | One bulleted line is kept as its bare name |
| SubtopicParser.LengthStep | supabase/functions/generate-subtopics/index.ts:94-95 | A kept line is trimmed and longer than two characters |
| SubtopicParser.FirstTen | supabase/functions/generate-subtopics/index.ts:96 | A prefix of at most ten elements, the whole input unless that holds more than ten |
| SubtopicParser.LengthFallback | supabase/functions/generate-subtopics/index.ts:92-96 | At most ten elements, and no more than the content has lines |
| SubtopicParser.LengthFallbackLines | supabase/functions/generate-subtopics/index.ts:92-96 | At most ten elements, each a trimmed line of at least three characters, in line order; a line is used exactly when its trimmed form is longer than two and it is among the first ten such |
| SubtopicParser.LengthFallbackElements | supabase/functions/generate-subtopics/index.ts:92-96 | Every element of the length fallback is trimmed and at least three characters long |
| Text.IsSpace | supabase/functions/generate-subtopics/index.ts:84-86 | The characters `trim()` removes and `\s` matches: the JavaScript white-space and line-terminator characters (a definition, no contract) |
| Text.Trim | supabase/functions/generate-subtopics/index.ts:84 | The result is trimmed, is the middle of the input between a blank prefix and a blank suffix, and is empty exactly when the input is blank |
| Text.TrimStart | supabase/functions/generate-subtopics/index.ts:86 | Leading whitespace is removed: a suffix remains, the removed part is blank, the rest does not start with whitespace |
| Text.TrimEnd | supabase/functions/generate-subtopics/index.ts:84 | Trailing whitespace is removed: a prefix remains, the removed part is blank, the rest does not end with whitespace |
| Text.TrimOfTrimmed | supabase/functions/generate-subtopics/index.ts:84 | A trimmed string is its own trim |
| Text.TrimIdempotent | supabase/functions/generate-subtopics/index.ts:84-86 | Trimming twice is trimming once |
| Text.SplitLines | supabase/functions/generate-subtopics/index.ts:83 | Splitting gives at least one piece, and no piece contains a line feed |
| Text.JoinSplitLines | supabase/functions/generate-subtopics/index.ts:83 | Joining the pieces with line feeds gives the content back |
| Text.SplitJoinLines | supabase/functions/generate-subtopics/index.ts:83 | Splitting joined lines without line feeds gives the same lines back |
| Text.SplitLinesOfLine | supabase/functions/generate-subtopics/index.ts:83 | A line without line feed splits to itself, and in front of a line feed it becomes the first piece |
| Text.FirstIndex | supabase/functions/generate-subtopics/index.ts:77 | The position of the first occurrence, or none exactly when the character does not occur |
| Text.LastIndex | supabase/functions/generate-subtopics/index.ts:77 | The position of the last occurrence, or none exactly when the character does not occur |
| Text.Contains | src/pages/Subjects.tsx:90 | True exactly when the text occurs at some position |
| Text.LexLess | src/pages/Planner.tsx:252 | JavaScript's string `<`: lexicographic by character, a proper prefix before its extensions (a definition, no contract) |
| Text.LexLessTrichotomy | src/pages/Planner.tsx:252 | String `<` is irreflexive and asymmetric, and total: exactly one of `a < b`, `a == b` and `b < a` holds |
| Text.LexLessTransitive | src/pages/Planner.tsx:252 | String `<` is transitive |
| Text.LexLessAppend | src/pages/Planner.tsx:252 | Comparing strings with same-length first parts compares those parts first, then the rest |
| Seqs.FilterMap | supabase/functions/generate-subtopics/index.ts:82-96 | A filter fused with a map, as the chains of the two fallbacks; never longer than its input |
| Seqs.Filter | src/pages/Subjects.tsx:162 | A filter's result is no longer than its input and every element passes |
| Seqs.FilterSources | src/pages/Subjects.tsx:162 | A filter keeps exactly the passing elements, each once, in order |
| Seqs.FilterMapSources | supabase/functions/generate-subtopics/index.ts:82-87 | A fused filter-and-map takes each kept element's image from its own position, in increasing order, and uses a position exactly when the element is kept |
| Seqs.FilterMapAllKept | supabase/functions/generate-subtopics/index.ts:82-87 | When every element is kept, the fused filter-and-map is a plain map |
| Seqs.SelectsPrefix | supabase/functions/generate-subtopics/index.ts:96 | The first n selected elements come from exactly the kept positions up to the n-th |
| Seqs.FilterAppend | src/pages/Progress.tsx:68 | Filtering a concatenation concatenates the filtered parts |
| Seqs.FilterKeepsAll | src/pages/Progress.tsx:70 | A filter keeps everything exactly when every element passes |
| Seqs.DropWhileAppend | supabase/functions/generate-subtopics/index.ts:86 | Dropping a leading run stops at the first element that fails the test |
| Seqs.DropWhileTwice | supabase/functions/generate-subtopics/index.ts:86 | Dropping two leading runs in turn leaves a suffix after a maximal run of each |
| JsonValues.Get | src/pages/Subjects.tsx:72 | A property of an object is the value of its last member of that name; non-objects and missing names give nothing |
| JsonValues.StringArray | supabase/functions/generate-subtopics/index.ts:101-104 | The response array holds the strings in order |
| StudyData.ForSubject | src/pages/Subjects.tsx:161-163 | Every subtopic returned belongs to the subject, and there are no more than in the input |
| StudyData.ForSubjectSelects | src/pages/Subjects.tsx:161-163 | Exactly the subject's subtopics are returned, each once, in their original order |
| StudyData.CompletedCount | src/pages/Subjects.tsx:204 | The completed count is at most the number of subtopics |
| StudyData.CompletedCountOfSubject | src/pages/Subjects.tsx:203-204 | A subject's completed count is at most its subtopic count, and equal to it exactly when all of its subtopics are completed |
| StudyData.ForSubjectIgnoresOthers | src/pages/Progress.tsx:68 | Another subject's subtopic, anywhere in the list, does not change a subject's subtopics |
| StudyData.ToggleUpdate | src/pages/Subjects.tsx:147-151 | The update targets the row's id and writes the negation of its shown completion |
| StudyData.Apply | src/pages/Subjects.tsx:150-151 | Applying an update changes only the completion |
| StudyData.ToggleTwice | src/pages/Subjects.tsx:147-151 | Toggling flips completion and toggling twice restores the row |
| StudyData.Reloaded | src/pages/Subjects.tsx:51-61 | A failed reload keeps the list; otherwise the list becomes the data, or empty when there is none |
| Progress.SubjectProgress | src/pages/Progress.tsx:67-72 | A subject's figure always lies in [0, 100] |
| Progress.Percent | src/pages/Progress.tsx:71 | The share times the whole is 100 times the part; for a part no larger than the whole it lies in [0, 100], and it is 100 exactly when part equals whole and 0 exactly when the part is 0 |
| Progress.SubjectProgressShare | src/pages/Progress.tsx:67-72 | No subtopics gives 0; otherwise the figure times the subtopic count is 100 times the completed count |
| Progress.SubjectProgressComplete | src/pages/Progress.tsx:68-71 | A subject shows 100 exactly when it has subtopics and all of them are completed |
| Progress.HasSubtopics | src/pages/Progress.tsx:68-69 | A subject's filtered list is non-empty exactly when some row belongs to it |
| Progress.SubjectProgressIgnoresOthers | src/pages/Progress.tsx:68 | Adding another subject's subtopic anywhere leaves a subject's figure unchanged |
| Progress.CountOrZero | src/pages/Progress.tsx:61-63 | A query that returned no data counts as 0, otherwise as its number of rows |
| Progress.Stats | src/pages/Progress.tsx:60-64 | Each statistic is the length of its query's rows when there are some, and 0 when the query returned no data |
| Progress.OverallProgress | src/pages/Progress.tsx:74-76 | No sessions gives 0; otherwise the figure times the total is 100 times the completed count |
| Progress.OverallProgressBounds | src/pages/Progress.tsx:74-76 | Given completed at most total, the figure lies in [0, 100] and is 100 exactly when there are sessions and all are completed |
| Progress.MissingSessionsShowZero | src/pages/Progress.tsx:61-76 | When the all-sessions query returns no data the overall figure is 0 |
| AiClient.Classify | src/pages/Subjects.tsx:90-96 | Rate limit exactly when the message mentions "429"; credits exactly when it mentions "402" but not "429"; generic otherwise, including an absent message |
| AiClient.RateLimitCheckedFirst | src/pages/Planner.tsx:89-92 | A message mentioning both codes gives the rate-limit toast |
| AiClient.ErrorToast | src/pages/Subjects.tsx:90-96 | Each error notice has its own toast text |
| AiClient.SubtopicItems | src/pages/Subjects.tsx:72 | Items are found exactly when the payload's `subtopics` member is an array |
| AiClient.RowsFor | src/pages/Subjects.tsx:74-77 | One row per generated name, same order, each carrying the subject |
| AiClient.NamesOf | src/pages/Subjects.tsx:74-77 | One name per row, in order |
| AiClient.NamesOfRowsFor | src/pages/Planner.tsx:74-77 | The rows give back exactly the generated names, in order |
| AiClient.RowsForNamesOf | src/pages/Planner.tsx:74-77 | One subject's rows are rebuilt from their names |
| AiClient.Generate | src/pages/Subjects.tsx:65-96 | An invocation error is classified and nothing is inserted; a payload without a `subtopics` array does nothing; otherwise the mapped rows are inserted, and an insert error is classified while success reports the number of names |
| AiClient.GeneratedCountsNames | src/pages/Subjects.tsx:72-85 | A success notice counts exactly the generated names, and every inserted row carries the subject |
| AiClient.FailedInvocationInsertsNothing | src/pages/Subjects.tsx:70 | A failed invocation inserts nothing and never reports success |
| Subjects.SubjectsPage.constructor | src/pages/Subjects.tsx:25-31 | The page starts with empty lists and fields, the dialog closed and the flag cleared |
| Subjects.SubjectsPage.SetGenerating | src/pages/Subjects.tsx:31 | The flag takes the value and the history records it |
| Subjects.SubjectsPage.GenerateSubtopicsWithAI | src/pages/Subjects.tsx:63-100 | The flag history gains exactly true then false, so the flag ends cleared on every path; the outcome is `Generate`'s, and the subtopics are reloaded exactly on success |
| Subjects.SubjectsPage.AddSubject | src/pages/Subjects.tsx:102-128 | A row is sent exactly when the name is not blank and a user is signed in, and it holds the name as typed; a failed or skipped insert changes nothing |
| Subjects.SubjectsPage.SubjectCreated | src/pages/Subjects.tsx:119-127 | After a created subject the field is cleared, the dialog closed, the subjects reloaded and one generation run for the new subject |
| Subjects.SubjectsPage.AddSubtopic | src/pages/Subjects.tsx:130-145 | A row is sent exactly when the text is not blank, holding the text as typed; the field is cleared and the list reloaded only on success |
| Subjects.SubjectsPage.ToggleSubtopic | src/pages/Subjects.tsx:147-159 | The update negates the shown completion; the list is reloaded only when the update succeeds |
| Planner.NullIfEmpty | src/pages/Planner.tsx:124 | An empty subject becomes null and any other is kept unchanged |
| Planner.MissingRequired | src/pages/Planner.tsx:111 | Title, date, start or end time is the empty string; the subject is not required (a definition, no contract) |
| Planner.ToInsert | src/pages/Planner.tsx:121-125 | The row holds the four required fields as typed and the signed-in user's id; its subject is null exactly when the form's subject is empty, and otherwise is that subject |
| Planner.ToInsertRoundTrip | src/pages/Planner.tsx:121-125 | The form is recovered from its row, and a row whose subject is not the empty string is recovered from its form |
| Planner.SessionToggle | src/pages/Planner.tsx:141 | The update targets the session and writes the negation of its shown completion |
| Planner.IsPast | src/pages/Planner.tsx:252 | `session.date < today` as string comparison (a definition, no contract) |
| Planner.IsOverdue | src/pages/Planner.tsx:265 | Past and not completed (a definition, no contract) |
| Planner.NeverOverdueWhenDoneOrToday | src/pages/Planner.tsx:252-265 | A completed session is never overdue, and no session is overdue on its own date |
| Planner.OverdueStaysOverdue | src/pages/Planner.tsx:252-265 | An overdue session stays overdue on every later day until it is completed |
| Planner.IsoDateOrder | src/pages/Planner.tsx:252 | For `YYYY-MM-DD` dates the string comparison is the order of the dates' YYYYMMDD numbers |
| Planner.DigitsOrder | src/pages/Planner.tsx:252 | For digit strings of one length, string order is numeric order |
| Planner.DashesDoNotMatter | src/pages/Planner.tsx:252 | Removing separators at the same places of two strings does not change how they compare |
| Planner.PlannerPage.constructor | src/pages/Planner.tsx:30-40 | The page starts with no sessions, an empty form, the dialog closed and the flag cleared |
| Planner.PlannerPage.SetGenerating | src/pages/Planner.tsx:33 | The flag takes the value and the history records it |
| Planner.PlannerPage.AddSession | src/pages/Planner.tsx:110-136 | Rejected exactly when a required field is empty; no user means nothing sent; otherwise the normalised row is sent, and only a successful insert resets the form, closes the dialog and reloads the sessions |
| Planner.PlannerPage.ToggleSession | src/pages/Planner.tsx:138-153 | The update negates the shown completion; the page celebrates exactly when a pending session was completed, and reloads only on success |
| Planner.PlannerPage.GenerateSubtopicsWithAI | src/pages/Planner.tsx:64-99 | The flag history gains exactly true then false, and the outcome is `Generate`'s, with no reload |

## Left out

- HTTP plumbing: `serve`, reading the request body, `fetch`, the JSON encoding of response bodies and the console logging are not modelled. The body, the credential and the gateway's reply are inputs; the response is a datatype carrying its status, and `Headers` gives its headers.
- Request bodies: a body that parses but has no string `subjectName` is not modelled. The JavaScript would put "undefined" into the prompt, or throw when the body is `null`. The model's body is either unparsable, with the error's message, or carries a string name.
- Thrown values: a thrown value that is not an `Error`, which would get the message "Unknown error", is not modelled. On the modelled paths every thrown value is an `Error`.
- Non-string content: gateway content that is present but not a string is not modelled. In JavaScript it fails in the parser and falls through to a 500.
- Text encoding: strings are sequences of code points, not UTF-16 code units. Whitespace is a fixed set: the JavaScript white-space and line-terminator characters.
- `JSON.parse` is a function parameter, because it is a foreign call. Only "it throws" versus "it returns this value" is modelled.
- Database calls: every query, insert, update and the authentication lookup are answered by the `Backend` values. Ordering, filtering and row identity in the database are not modelled.
- Progress page loading: `fetchData` is not modelled beyond how its results become the statistics (`Progress.Stats`). The week boundary is a date computed from the clock.
- Dates and clocks: dates and "today" are strings given as inputs. `new Date()`, `toISOString` and `toLocaleDateString` are left out.
- Display: toasts, animations, routing and the theme setting are not modelled. Notices are returned as values.
- `Math.round` and floating-point division: percentages are exact reals.
- Concurrency: each handler runs to completion before the next starts. In the page, `generateSubtopicsWithAI` after `addSubject` and the reloads are not awaited and could interleave with other handlers.
- Form input handlers: the handlers that edit the new-session form field by field are not modelled. The form is taken as the state it has when `addSession` runs.
