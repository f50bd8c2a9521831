# Study assistant: a verified model of its core

The study assistant is a small Flask application. It looks up subjects and
previous-year questions in a JSON store and asks a generative model for
notes, flashcards, mind maps, schedules and chat answers. Notes, chat and
schedules are streamed to the browser as server-sent events. The browser
page also runs a Pomodoro timer and a study-day streak.

This project models, in Dafny, the deterministic logic that sits around the
model calls and the page:

- `strings.dfy` (`Strings`): the Python and JavaScript string built-ins the
  code relies on. These are `find`, `rfind`, `in`, `strip`, `trim`,
  `split`, `join`, `lower`, `upper`, `replace` and decimal digits.
- `json.dfy` (`Json`): Python's `json.dumps` for the flat payload objects of
  the event stream, and the fragment of `JSON.parse` that reads them back.
  The two are proved inverse, and every payload is proved to be one line of
  printable ASCII.
- `database_helper.dfy` (`DatabaseHelper`): subject lookup, PYQ (previous
  year question) selection, the subject listing and the case-insensitive
  search. Each JSON dictionary is an ordered list of pairs with unique keys.
- `gemini_helper.dfy` (`GeminiHelper`): extraction of a JSON payload from a
  reply, the error placeholders, the modules block of the prompts, and the
  streaming generators. A streaming generator drops empty chunks and turns
  a failure into one prefixed error fragment.
- `app.py` routes (`App`, in `app.dfy`):
  - the event producers of the three streaming routes, as frame sequences;
  - the validation branches;
  - the non-streaming content, PYQ and chat routes;
  - the PDF file name.
- `script_timer.dfy` (`ScriptTimer`): JavaScript `parseInt`, the `MM:SS`
  display, and the timer's globals as the class `PomodoroTimer`.
- `script_streak.dfy` (`ScriptStreak`): `updateStreak` as a loop proved
  against a specification, and `saveSession` on the class `SessionLog`.
- `script_sse.dfy` (`ScriptSse`): the browser's event read loop. It buffers
  reads, splits them at newlines, keeps the remainder and handles each
  complete line.
- `pipeline.dfy` (`Pipeline`): the server's events fed to the browser's read
  loop, end to end. This holds however the bytes are cut into reads. The
  module also holds the schedule request that the page posts.
- `wrappers.dfy` (`Wrappers`): `Option` and `Result`.

The model is passed in as a value, never called:

- a non-streamed reply is a `Result` (the text, or the message of the
  exception);
- a streamed reply is a `ModelStream`: the chunks, and the message of the
  exception that ended the stream, if any.

Other inputs are parameters too:

- the subject store and the PYQ store;
- the PDF renderer's output, for the corrected download route;
- the value of each input field the page reads;
- "today" as a day number.

## Model

| member | source | states |
|---|---|---|
| Strings.Find | utils/gemini_helper.py:85 | the first index of the character, -1 exactly when it does not occur, and no occurrence before it |
| Strings.RFind | utils/gemini_helper.py:86 | the last index of the character, -1 exactly when it does not occur, and no occurrence after it |
| Strings.StripByShape | utils/gemini_helper.py:78 | the stripped text is a contiguous slice of the text, and every character cut off at either end is white space |
| Strings.StripByIdempotent | utils/gemini_helper.py:78 | stripping an already stripped text changes nothing |
| Strings.JoinSplit | static/js/script.js:143 | joining the pieces of `split('\n')` with newlines gives back the buffer |
| Strings.SplitJoin | static/js/script.js:143 | splitting a newline join of newline-free pieces gives back exactly those pieces |
| Strings.Upper | app.py:26 | `upper()` maps each character on its own and keeps the length |
| Strings.Lower | utils/database_helper.py:63 | `lower()` maps each character on its own and keeps the length |
| Strings.ReplaceChar | app.py:98 | `replace(' ', '_')` substitutes every space and leaves every other character and the length alone |
| Strings.DecimalRoundTrip | static/js/script.js:481 | the decimal digits `String(n)` writes read back as `n` |
| Json.EscapeCharRoundTrip | app.py:323 | each character `json.dumps` writes (short escape, plain, `\uXXXX` or a surrogate pair) reads back through `JSON.parse` as that character |
| Json.PairRoundTrip | app.py:323 | a character above the Basic Multilingual Plane, written as a surrogate pair, reads back as itself |
| Json.EscapeStringRoundTrip | app.py:323 | a written string body, then the closing quote, reads back as the string and leaves the rest of the text |
| Json.DumpsRoundTrip | static/js/script.js:153 | `JSON.parse` of any payload `json.dumps` wrote gives back the same object |
| Json.DumpsIsOneLine | app.py:323 | every written payload is printable ASCII, holds no line break, starts with `{` and ends with `}` |
| Json.Member | static/js/script.js:154 | a field lookup finds a value exactly when the key is present, and the value is that of the last member with the key, as `JSON.parse` keeps when a key repeats |
| DatabaseHelper.Get | utils/database_helper.py:33 | `dict.get`: nothing exactly when the key is absent, otherwise the value stored under it |
| DatabaseHelper.GetSubjectInfo | utils/database_helper.py:30-43 | None exactly when the code is absent or its entry is empty; otherwise the queried code, the title (or the code) and the modules (or none) |
| DatabaseHelper.GetPyqsForSubject | utils/database_helper.py:45-52 | with a non-empty exam type, that exam type's list or an empty one; without one, the subject's whole dictionary or an empty one |
| DatabaseHelper.ExamTypeSelectsFromWhole | utils/database_helper.py:48-52 | asking for one exam type gives that exam type's entry in the whole-subject answer, or an empty list |
| DatabaseHelper.GetAllSubjects | utils/database_helper.py:54-58 | one `{code, name}` per store entry, in store order, with the name defaulting to the code |
| DatabaseHelper.ListingAgreesWithLookup | utils/database_helper.py:57 | every listed subject with a non-empty entry is found by the lookup under its code with the listed name |
| DatabaseHelper.SearchSubjects | utils/database_helper.py:60-71 | the loop keeps exactly the entries whose lowercased code or name contains the lowercased query, in store order |
| DatabaseHelper.SearchSound | utils/database_helper.py:68 | every result matches the query and is a listed subject |
| DatabaseHelper.SearchComplete | utils/database_helper.py:66-69 | every matching subject is among the results |
| DatabaseHelper.MatchPositions | utils/database_helper.py:66-69 | the results stand at strictly increasing store positions, and every matching position is one of them |
| DatabaseHelper.SearchKeepsOrder | utils/database_helper.py:66-71 | results keep the store's order |
| DatabaseHelper.EmptyQueryListsAll | utils/database_helper.py:63-69 | an empty query lists every subject, as `get_all_subjects` does |
| GeminiHelper.DelimitedSlice | utils/gemini_helper.py:85-88 | a slice exists exactly when the first `open` comes before the last `close`; it starts with `open`, ends with `close` and is a substring of the text |
| GeminiHelper.Extract | utils/gemini_helper.py:76-94 | the result is the stripped text, or (when a fence occurs) the delimited slice |
| GeminiHelper.ExtractKeepsOpened | utils/gemini_helper.py:80-81 | a stripped reply that starts with the opening delimiter comes back unchanged |
| GeminiHelper.ExtractFallsBack | utils/gemini_helper.py:94 | with no fence, or no ordered pair of delimiters, the stripped text comes back |
| GeminiHelper.ExtractDependsOnFenceOnly | utils/gemini_helper.py:84-93 | the ```` ```json ```` branch and the bare fence branch give the same result |
| GeminiHelper.ExtractFenced | utils/gemini_helper.py:84-93 | a fenced reply with an ordered pair gives the slice from the first `open` to the last `close`, a substring starting and ending with them |
| GeminiHelper.FlashcardPlaceholderReadsBack | utils/gemini_helper.py:95-96 | the flashcard placeholder is a one-element array whose card reads back as question "Error" with the message as answer |
| GeminiHelper.MindmapPlaceholderShape | utils/gemini_helper.py:144-145 | the mind-map placeholder is the text `{"topic": "Error", "subtopics": [...]}` whose one subtopic is an object that reads back as the message |
| GeminiHelper.GenerateFlashcards | utils/gemini_helper.py:50-96 | the extracted array text for a reply, the placeholder with the message for a failure |
| GeminiHelper.GenerateMindmap | utils/gemini_helper.py:98-145 | the extracted object text for a reply, the placeholder with the message for a failure |
| GeminiHelper.ModuleLines | utils/gemini_helper.py:15 | one `Module {id}: {name} - Topics: {topics}` line per module, in module order |
| GeminiHelper.ModulesTextLines | utils/gemini_helper.py:15-16 | when no field holds a line break, `modules_text` splits back into exactly one line per module; no modules give an empty block |
| GeminiHelper.NonEmpty | utils/gemini_helper.py:39-40 | the kept chunks are non-empty and come from the source |
| GeminiHelper.NonEmptyAppend | utils/gemini_helper.py:37-40 | filtering the chunks distributes over concatenation, so order is kept |
| GeminiHelper.NonEmptyKeepsText | utils/gemini_helper.py:39-40 | dropping empty chunks does not change the text they make up |
| GeminiHelper.StreamedShape | utils/gemini_helper.py:37-46 | the generator yields the non-empty chunks in order; a failure adds exactly one fragment, the prefixed message, last |
| GeminiHelper.StreamedText | utils/gemini_helper.py:37-46 | the streamed text is the model's text followed, after a failure, by the prefixed message |
| GeminiHelper.StreamChunks | utils/gemini_helper.py:37-46 | the filtering loop yields exactly the streamed fragments |
| GeminiHelper.GenerateStudyNotes | utils/gemini_helper.py:34-46 | the notes generator yields the fragments, with "Error generating study notes: " as the failure prefix |
| GeminiHelper.CreateStudySchedule | utils/gemini_helper.py:165-177 | the schedule generator yields the fragments, with "Error generating schedule: " as the failure prefix |
| GeminiHelper.ChatResponse | utils/gemini_helper.py:208-220 | the chat generator yields the fragments, with "Error: " as the failure prefix |
| GeminiHelper.AnswerQuestion | utils/gemini_helper.py:191-195 | the reply's text, or "Error answering question: " and the message |
| App.WireShape | app.py:323 | every event is `data: `, one line of printable JSON and a blank line, and the JSON reads back as the frame's payload |
| App.Render | app.py:321-324 | one event per frame, in order |
| App.Relay | app.py:322-326 | one text frame per item, in order, then `done`, or the error frame when the iteration raised |
| App.RelayEndsOnce | app.py:319-326 | the relay ends with exactly one terminal frame, an error exactly when something failed; `done` never follows an error |
| App.RelayEvents | app.py:322-326 | the relay loop emits exactly the events of the relay's frames |
| App.NotesFrames | app.py:321-324 | the notes stream is the subject's name frame followed by the relay |
| App.NotesFramesShape | app.py:319-326 | the name comes first, the items follow in order and exactly one terminal frame ends the stream |
| App.NotesEvents | app.py:319-326 | the notes producer emits exactly the events of the notes frames |
| App.GenerateStudyContent | app.py:21-49 | an unknown subject is a 404 with the code in the message; otherwise the name, the code, the exam type (default semester), flashcards and mind map |
| App.GenerateNotesStream | app.py:302-331 | an unknown subject is a 404 before any generation; otherwise the notes events of the model's stream |
| App.ChatFrames | app.py:277-289 | with a context, one frame carrying the answer and `done`; otherwise the relay of the chat stream |
| App.ChatFramesShape | app.py:279-283 | every chat stream ends with one terminal frame; with a context it is that frame alone |
| App.ChatStream | app.py:262-294 | an empty message is a 400 before any generation; otherwise the chat events |
| App.Chat | app.py:231-260 | an empty message is a 400; with a context the answer; without one the generator cannot be written as JSON and the reply is a 500 |
| App.CreateSchedule | app.py:116-142 | a 400 exactly when subjects or exam date are empty; past that the generator cannot be written as JSON, a 500 |
| App.ScheduleStreamCheck | app.py:343-360 | a 400 when subjects, start date or end date are empty; then a 400 exactly when the hours (default 2) are below 2; null hours are a 500 |
| App.ScheduleStreamAsWritten | app.py:362-368 | past the checks the stream is a single error frame carrying the call's `TypeError` |
| App.ScheduleStreamNeverStreams | app.py:364 | a request that passes the checks never gets schedule text or `done` |
| App.WireDistinct | app.py:365-368 | events of different payloads are different texts |
| App.ScheduleStream | app.py:339-373 | with the intended call: the checks, then the relay of the schedule generator |
| App.GetPyqs | app.py:144-164 | a missing code is a 400; otherwise the subject's name (or the code) and its papers |
| App.ExamLabel | app.py:91-96 | the four known exam types get their label; any other value passes through unchanged |
| App.PdfFilename | app.py:98 | `{code}_{name with spaces as underscores}_{label}_Notes.pdf`, with no space left in the name part |
| App.PdfFilenameShape | app.py:98 | the file name has no space when code and exam type have none, and ends in `_Notes.pdf` |
| App.DownloadPdfAsWritten | app.py:60-114 | empty notes are a 400; any other request is a 500 carrying the `AttributeError` of the missing renderer method |
| App.DownloadPdfNeverServes | app.py:78 | as written no request gets a file, while with a renderer non-empty notes and a non-empty PDF do |
| App.DownloadPdf | app.py:60-105 | with a renderer: empty notes are a 400 before rendering; an empty or missing PDF is a 500; otherwise the file under its name, with the field defaults |
| ScriptTimer.ParseUnsigned | static/js/script.js:435 | a number is read exactly when the text begins with a digit and, after `0x` or `0X`, a hex digit follows |
| ScriptTimer.ParseIntPrefix | static/js/script.js:435 | the decimal digits at the front are read and the rest of the text ignored, so `"25 minutes"` gives 25 and `"1.5"` gives 1 |
| ScriptTimer.ParseIntHex | static/js/script.js:435 | after `0x` or `0X` the hex digits that follow are read as base 16, up to the first other character |
| ScriptTimer.NoDigitIsNaN | static/js/script.js:435 | a text without a digit is NaN |
| ScriptTimer.ParseIntSkipsSpace | static/js/script.js:435 | leading white space does not change what `parseInt` reads |
| ScriptTimer.ParseIntDecimal | static/js/script.js:435 | the digits of a non-negative number read back as it |
| ScriptTimer.ParseIntNegative | static/js/script.js:435 | a minus sign before digits negates the number |
| ScriptTimer.ResolveMinutes | static/js/script.js:435 | `parseInt(input) \|\| 25`: never 0, 25 for NaN and for 0, the number otherwise |
| ScriptTimer.JsRem60 | static/js/script.js:480 | JavaScript `% 60`: the Euclidean remainder for non-negative times, a remainder with the dividend's sign otherwise |
| ScriptTimer.Pad2 | static/js/script.js:481 | `padStart(2, '0')`: at least two characters, the text at the end and zeros before it |
| ScriptTimer.FormatTimerShape | static/js/script.js:478-483 | for a non-negative time the display is `MM:SS` with MM the padded `t div 60` and SS the two-digit `t mod 60` |
| ScriptTimer.PadValue | static/js/script.js:481 | padding keeps the value of the digits; under 100 the text is two characters |
| ScriptTimer.ParseFormatTimer | static/js/script.js:478-483 | reading the display back gives the time it shows |
| ScriptTimer.ParseTimerOf | static/js/script.js:481 | digits, a colon and two digits read back as minutes times sixty plus seconds |
| ScriptTimer.PomodoroTimer.constructor | static/js/script.js:2-4 | the timer starts at 0 seconds, not paused, with no interval |
| ScriptTimer.PomodoroTimer.Start | static/js/script.js:434-456 | loads `minutes * 60` unless resuming from a pause, clears the pause and runs a new interval |
| ScriptTimer.PomodoroTimer.Pause | static/js/script.js:458-464 | sets the pause, stops the interval and keeps the remaining time |
| ScriptTimer.PomodoroTimer.Reset | static/js/script.js:466-476 | clears the pause, stops the interval, reloads `minutes * 60` and shows it |
| ScriptTimer.PomodoroTimer.Tick | static/js/script.js:447-455 | one second off while time remains; at 0 the interval is cleared and the session completes with the input's minutes; time never goes below 0 |
| ScriptStreak.InsertDescending | static/js/script.js:576 | inserting a day into a strictly decreasing list keeps it strictly decreasing and adds exactly that day |
| ScriptStreak.UniqueDescending | static/js/script.js:576 | `[...new Set(dates)].sort((a, b) => b - a)`: strictly decreasing and holding exactly the session days |
| ScriptStreak.RunBackMeaning | static/js/script.js:578-586 | the run from a day covers exactly that day and the ones before it, and stops at the first day without a session |
| ScriptStreak.MatchingPrefixIsRun | static/js/script.js:578-586 | on the distinct days latest first, none after today, the loop's count is the run of days back from today |
| ScriptStreak.UpdateStreak | static/js/script.js:557-586 | the loop over the sorted distinct days with its `break` returns the streak, the run of consecutive session days ending today |
| ScriptStreak.StreakOfUnique | static/js/script.js:576-586 | counting over the sorted distinct days gives the streak; a future-dated session makes it 0 |
| ScriptStreak.StreakEmpty | static/js/script.js:560-563 | no sessions give 0 |
| ScriptStreak.StreakNeedsToday | static/js/script.js:581 | with no session today the streak is 0 |
| ScriptStreak.StreakCountsBack | static/js/script.js:578-586 | each of today, today - 1, ..., today - (streak - 1) has a session and the day before the run has none |
| ScriptStreak.StreakAtMostDistinctDays | static/js/script.js:576 | the streak is at most the number of distinct session days |
| ScriptStreak.StreakIgnoresRepeats | static/js/script.js:576 | another session on a day already present leaves the streak unchanged |
| ScriptStreak.SessionLog.constructor | static/js/script.js:557-588 | page load shows the streak of the stored sessions |
| ScriptStreak.SessionLog.SaveSessionAsWritten | static/js/script.js:501-521 | a failed call changes nothing; otherwise the session is stored but the streak shown is that of the sessions before it |
| ScriptStreak.SaveOrderMissesNewSession | static/js/script.js:512-518 | a session yesterday and one finished today: refreshing first shows 0, storing first shows 2 |
| ScriptStreak.SessionLog.SaveSession | static/js/script.js:501-521 | with the session stored before the refresh, the streak shown counts it |
| ScriptStreak.SavedTodayCounts | static/js/script.js:512-518 | with the corrected order, a session finished today always gives a streak of at least 1 |
| ScriptSse.TextOf | static/js/script.js:154-155 | the text appended: the `text` string, `"true"` for `true`, nothing when the field is missing or falsy |
| ScriptSse.SplitBuffer | static/js/script.js:142-146 | the complete lines joined by newlines, then the remainder, are the old buffer plus the read; no piece holds a newline |
| ScriptSse.FoldMeaning | static/js/script.js:154-159 | the accumulated text is the in-order concatenation of the lines' texts; `done` and `error` are seen exactly when some line has them |
| ScriptSse.FoldAppend | static/js/script.js:148-166 | handling two runs of lines one after the other combines their effects |
| ScriptSse.EffectsAppend | static/js/script.js:148 | the effects of two runs of lines are the effects of each, in order |
| ScriptSse.HandleLines | static/js/script.js:148-166 | the loop over one read's lines accumulates exactly their combined effect |
| ScriptSse.ReadStream | static/js/script.js:138-167 | the read loop ends with the combined effect of the stream's complete lines: however the text is cut into reads, the result depends only on the whole text |
| ScriptSse.BufferStep | static/js/script.js:142-146 | after each read, the lines so far, the new lines and the remainder join to all the text read |
| ScriptSse.LastPieceDropped | static/js/script.js:146 | the complete lines of the text read are all the pieces but the kept remainder |
| ScriptSse.HandleJsonLine | static/js/script.js:149-161 | a `data: ` line whose JSON parses is handled as that object's text and flags |
| ScriptSse.HandleBlankLine | static/js/script.js:149 | the blank line that ends an event has no effect |
| Pipeline.EventsText | app.py:323 | the events' text is their data lines and blank lines joined by newlines |
| Pipeline.CompleteEventLines | static/js/script.js:143-146 | the complete lines the browser handles are exactly the events' lines |
| Pipeline.EventLinesEffects | static/js/script.js:148-166 | handling the events' lines combines the data lines' effects |
| Pipeline.RenderEvents | app.py:323 | each rendered frame is its newline-free data line followed by a blank line |
| Pipeline.FrameLineEffect | static/js/script.js:149-161 | the browser handles each frame's `data: ` line as that frame's text and flags |
| Pipeline.ClientView | static/js/script.js:138-167 | for any cutting of the server's events into reads, the browser's loop sees the frames' combined effect |
| Pipeline.Receive | static/js/script.js:138-167 | the read loop over a server's events ends with the frames' combined effect |
| Pipeline.RelayView | app.py:322-324 | a relay that did not fail shows the items' text and `done`, and no error |
| Pipeline.ReceiveNotes | static/js/script.js:133-167 | the notes the browser accumulates are the model's text, followed by the prefixed message after a failure; `done` is seen and no error |
| Pipeline.NotesView | app.py:321 | the name frame adds nothing to what the browser accumulates |
| Pipeline.ReceiveChat | static/js/script.js:295-330 | the chat text is the answer with a context; otherwise the model's text followed by the prefixed message after a failure |
| Pipeline.ChatView | app.py:277-289 | the chat frames show `done` and no error, with the answer or the streamed text |
| Pipeline.SingleFrameView | app.py:283 | a one-frame stream shows that frame's effect |
| Pipeline.ReceiveError | static/js/script.js:387-424 | a single error frame gives no text and no `done`, with the error seen exactly when its message is not empty |
| Pipeline.ReceiveSchedule | static/js/script.js:387-424 | with the intended server call, the schedule text is the model's text and `done` is seen |
| Pipeline.HoursSent | static/js/script.js:379 | `parseInt` of the hours input as `JSON.stringify` writes it: NaN becomes null |
| Pipeline.ScheduleRequestAsWritten | static/js/script.js:357-380 | nothing is sent when the trimmed subjects or the exam date are empty; the body carries neither a start nor an end date |
| Pipeline.ScheduleRequestRejected | app.py:349-353 | every request the page sends is rejected with 400 for missing dates |
| Pipeline.ScheduleRequest | static/js/script.js:373-380 | the corrected body carries today as start date and the exam date as end date |
| Pipeline.ScheduleRequestAccepted | app.py:347-360 | the corrected request passes exactly when the hours read as at least 2; no number is a 500, fewer than 2 a 400 |

## Left out

- The generative model, its SDK and the prompt texts: replies are passed in as `Result` and `ModelStream` values. Only the `modules_text` block of a prompt is modelled.
- The non-streaming paths of `generate_study_notes`, `create_study_schedule` and `chat_response`: these functions contain `yield`, so with `stream=False` they return a generator, not text. The model says only what `jsonify` makes of that generator (`App.Chat`, `App.CreateSchedule`).
- Flask glue: status plumbing, headers and `send_file`, and the outer `except Exception` handlers. The only failures modelled are the ones the code evidently reaches: the call error of the schedule stream, the `None < 2` comparison and the unserialisable generator.
- Request fields holding JSON null or a non-string value: a text field is either absent or a string (`Option<string>`). The exception is `hours_per_day`, where a number and null are modelled.
- `load_subjects`, `load_pyqs` and file I/O: the stores are parameters. `get_study_resources` and the `/api/get-resources`, `/api/subjects`, `/api/save-session`, `/api/get-sessions` and `/` routes are constant tables or echoes with nothing to prove.
- PDF generation: `GeminiHelper` defines no `generate_pdf_from_notes`, so the call at app.py:78 raises `AttributeError` and the route as written never serves a file (see Findings). The corrected route takes the renderer's output as a parameter, with None for a failure; rendering itself is not modelled.
- A module's `id`: it is kept as the text it renders to.
- `TextDecoder`: the browser's reads are the already decoded strings.
- The DOM, notifications, `renderMarkdown`, the flashcard, mind-map and PYQ displays, `addSessionToList`, `loadSessions`, the chat history list, the theme and the tabs. The read loop reports the accumulated text and whether `done` and `error` were seen. It does not model what each page does with them.
- `setInterval` timing: the interval's callback is the explicit method `Tick`.
- JavaScript number precision: integers are unbounded. A `parseInt` of more than 15 digits is exact here, where JavaScript would round it.
- `str.lower`, `str.upper` and `toUpperCase` map ASCII letters only. Full Unicode case mapping is not modelled.
- JSON is modelled only for flat objects with string, `true`, `false` and `null` values. These are what the event frames carry. Numbers, arrays and nested objects make `ParseObject` fail, where `JSON.parse` would accept them.
- The placeholders `FlashcardPlaceholder` and `MindmapPlaceholder`: the arrays in them are not parsed. Their text is stated, and the objects inside them (the card, the subtopic) are proved to read back.
- Dates: a session's timestamp enters only as its local day number. Milliseconds, local midnight, daylight saving and time zones are left out.
- The wording of the Python exception messages follows CPython 3.10 and later.
- ScriptTimer.ParseFormatTimer: proved for non-negative times only. A negative minutes input makes `Reset` load a negative time, and its display holds a minus sign that `ParseTimer` does not read back.
- ScriptTimer.PomodoroTimer.Tick: its "never below 0" clause is stated for a non-negative starting time, because a negative minutes input starts the timer below 0. The callback then completes the session at once.

## Findings

| source | as written | input that shows it | evidently intended | confidence | as-written member | corrected member |
|---|---|---|---|---|---|---|
| app.py:364 | `create_study_schedule(subjects, start_date, end_date, hours_per_day, stream=True)` passes four positional arguments to a method whose fourth parameter is `stream` (utils/gemini_helper.py:147), so the call raises `TypeError` | any request passing the checks, e.g. subjects "DBMS", start and end dates set, hours 2: the stream is one error frame | call the schedule generator with the subjects, the end date as exam date and the hours, and relay its chunks | not executed | App.ScheduleStreamAsWritten | App.ScheduleStream |
| static/js/script.js:376-380 | the page posts `subjects`, `exam_date` and `hours_per_day`, but the stream route requires `start_date` and `end_date` (app.py:345-353) | subjects "DBMS", exam date "2026-12-01", hours "4": the server answers 400 "Please provide subjects, start date, and end date" | send a start date (today) and the exam date as end date | not executed | Pipeline.ScheduleRequestAsWritten | Pipeline.ScheduleRequest |
| app.py:78 | `download_pdf` calls `gemini.generate_pdf_from_notes(...)`, but the `GeminiHelper` class (utils/gemini_helper.py:9-223) defines no such method, so the call raises `AttributeError` and the handler at app.py:107-114 answers 500 | any request with non-empty notes: 500 "'GeminiHelper' object has no attribute 'generate_pdf_from_notes'" | render the notes to a PDF and send it under the generated file name | not executed | App.DownloadPdfAsWritten | App.DownloadPdf |
| static/js/script.js:512-518 | `saveSession` calls `updateStreak` before pushing the new session to local storage, so the streak shown leaves out the session just finished | one stored session yesterday, a session finished today: the page shows 0 days instead of 2 | store the session, then refresh the streak | not executed | ScriptStreak.SessionLog.SaveSessionAsWritten | ScriptStreak.SessionLog.SaveSession |

For each row, the model also proves what the discrepancy does:

- Schedule call: App.ScheduleStreamNeverStreams shows that no request ever gets schedule text. Pipeline.ReceiveError shows that the page sees no text and no `done`. Pipeline.ReceiveSchedule proves what the corrected call delivers.
- Schedule request: Pipeline.ScheduleRequestRejected shows that every request the page sends is rejected. Pipeline.ScheduleRequestAccepted gives the outcome of the corrected request.
- PDF download: App.DownloadPdfNeverServes shows that as written no request gets a file, while the corrected route serves one for non-empty notes and a non-empty PDF.
- Save order: ScriptStreak.SaveOrderMissesNewSession is the concrete counterexample. ScriptStreak.SavedTodayCounts proves that with the corrected order a session finished today always counts.
