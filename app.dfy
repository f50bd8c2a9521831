/** The routes of app.py, with the store, the model and the PDF renderer
    passed in as values.

    A streaming route answers with a sequence of server-sent events; each
    event is `data: ` followed by one JSON object and a blank line. The
    inner `generate()` producers are methods that emit events one at a time;
    what they emit is specified by the frame sequences `NotesFrames`,
    `Relay` and `ChatFrames`. Early rejections are `Rejected` replies with
    the route's status code and message. */
module App {
  import opened Wrappers
  import opened Strings
  import opened Json
  import DatabaseHelper
  import GeminiHelper

  // ----- frames -----

  /** The payloads the streaming routes send. */
  datatype Frame =
    | SubjectName(name: string)
    | Text(text: string)
    | Done
    | TextDone(text: string)
    | Error(message: string)

  /** The dictionary each frame is written from, in its key order. */
  function Payload(f: Frame): Object {
    match f
    case SubjectName(n) => [("subject_name", JString(n))]
    case Text(t) => [("text", JString(t))]
    case Done => [("done", JTrue)]
    case TextDone(t) => [("text", JString(t)), ("done", JTrue)]
    case Error(m) => [("error", JString(m))]
  }

  /** `f"data: {json.dumps(payload)}\n\n"`. */
  function Wire(f: Frame): string {
    "data: " + Dumps(Payload(f)) + "\n\n"
  }

  function Render(frames: seq<Frame>): (r: seq<string>)
    ensures |r| == |frames| && forall k :: 0 <= k < |frames| ==> r[k] == Wire(frames[k])
  {
    seq(|frames|, k requires 0 <= k < |frames| => Wire(frames[k]))
  }

  /** Every event is one line of printable JSON after `data: `, ended by a
      blank line, and the JSON reads back as the frame's payload. */
  lemma WireShape(f: Frame)
    ensures var j := Dumps(Payload(f));
            Wire(f) == "data: " + j + "\n\n"
            && '\n' !in j && Printable(j) && |j| >= 2 && j[0] == '{' && j[|j| - 1] == '}'
            && ParseObject(j) == Some(Payload(f))
  {
    DumpsIsOneLine(Payload(f));
    DumpsRoundTrip(Payload(f));
  }

  /** What a relay sees of a generator: the items it yielded, and the
      message of the exception that ended the iteration, if one did. */
  datatype Source = Source(items: seq<string>, failure: Option<string>)

  /** The frames the `for chunk in ...` relay loops send: one text frame per
      item, then `done`, or an error frame when the iteration raised. */
  function Relay(src: Source): (r: seq<Frame>)
    ensures |r| == |src.items| + 1
    ensures forall k :: 0 <= k < |src.items| ==> r[k] == Text(src.items[k])
    ensures r[|src.items|] == if src.failure.Some? then Error(src.failure.value) else Done
  {
    seq(|src.items|, k requires 0 <= k < |src.items| => Text(src.items[k]))
      + [if src.failure.Some? then Error(src.failure.value) else Done]
  }

  predicate Terminal(f: Frame) {
    f.Done? || f.TextDone? || f.Error?
  }

  /** A frame sequence ends with its one terminal frame. */
  predicate EndsOnce(frames: seq<Frame>) {
    |frames| > 0 && Terminal(frames[|frames| - 1])
    && forall k :: 0 <= k < |frames| - 1 ==> !Terminal(frames[k])
  }

  /** The relay ends with exactly one terminal frame: `done` when nothing
      failed, the error when something did; so `done` never follows an
      error and nothing follows either. */
  lemma RelayEndsOnce(src: Source)
    ensures EndsOnce(Relay(src))
    ensures Relay(src)[|src.items|].Error? <==> src.failure.Some?
    ensures forall i, j :: 0 <= i < j < |Relay(src)| ==> !(Relay(src)[i].Error? && Relay(src)[j].Done?)
  {
  }

  lemma RenderAppend(a: seq<Frame>, b: seq<Frame>)
    ensures Render(a + b) == Render(a) + Render(b)
  {
  }

  /** The relay loop: emits one event per item, then the terminal event. */
  method RelayEvents(src: Source) returns (events: seq<string>)
    ensures events == Render(Relay(src))
  {
    ghost var frames := Relay(src);
    events := [];
    var i := 0;
    while i < |src.items|
      invariant 0 <= i <= |src.items|
      invariant events == Render(frames[..i])
    {
      assert frames[..i + 1] == frames[..i] + [Text(src.items[i])];
      RenderAppend(frames[..i], [Text(src.items[i])]);
      events := events + [Wire(Text(src.items[i]))];
      i := i + 1;
    }
    var last := if src.failure.Some? then Error(src.failure.value) else Done;
    assert frames == frames[..i] + [last];
    RenderAppend(frames[..i], [last]);
    events := events + [Wire(last)];
  }

  /** The frames of `generate_notes_stream`: the subject's name first, then
      the relay. */
  function NotesFrames(name: string, src: Source): (r: seq<Frame>)
    ensures |r| == |src.items| + 2 && r[0] == SubjectName(name) && r[1..] == Relay(src)
  {
    [SubjectName(name)] + Relay(src)
  }

  /** A notes stream starts with the name, carries the items in order and
      ends with exactly one terminal frame. */
  lemma NotesFramesShape(name: string, src: Source)
    ensures var r := NotesFrames(name, src);
            EndsOnce(r) && r[0] == SubjectName(name)
            && forall k :: 0 <= k < |src.items| ==> r[k + 1] == Text(src.items[k])
  {
    assert NotesFrames(name, src)[1..] == Relay(src);
  }

  /** The `generate()` of `generate_notes_stream`. */
  method NotesEvents(name: string, src: Source) returns (events: seq<string>)
    ensures events == Render(NotesFrames(name, src))
  {
    var rest := RelayEvents(src);
    RenderAppend([SubjectName(name)], Relay(src));
    events := [Wire(SubjectName(name))] + rest;
  }

  // ----- replies -----

  /** A route's reply: an event stream, an early rejection with its status
      and message, or one of the JSON bodies of a successful request. */
  datatype Reply =
    | Events(events: seq<string>)
    | Rejected(status: nat, error: string)
    | StudyContent(subjectName: string, subjectCode: string, examType: string, flashcards: string, mindmap: string)
    | Pyqs(subjectName: string, pyqs: DatabaseHelper.PyqResult)
    | PdfFile(filename: string, pdf: seq<bv8>)
    | ChatAnswer(response: string)

  /** `data.get(key, default)` for a string field. */
  function Field(v: Option<string>, default: string): string {
    if v.Some? then v.value else default
  }

  function NotFound(code: string): Reply {
    Rejected(404, "Subject " + code + " not found in database")
  }

  /** `generate_study_content`: an unknown subject is a 404; otherwise the
      name, the code, the exam type and the flashcard and mind-map texts
      built from the two model replies. */
  function GenerateStudyContent(subjects: DatabaseHelper.Dict<DatabaseHelper.SubjectEntry>,
                                subjectCode: Option<string>, examType: Option<string>,
                                flashcardsReply: Result<string>, mindmapReply: Result<string>): (r: Reply)
    requires DatabaseHelper.UniqueKeys(subjects)
    ensures var code := Upper(Field(subjectCode, ""));
            var info := DatabaseHelper.GetSubjectInfo(subjects, code);
            (info.None? ==> r == NotFound(code))
            && (info.Some? ==> r == StudyContent(info.value.name, code, Field(examType, "semester"),
                                                 GeminiHelper.GenerateFlashcards(flashcardsReply),
                                                 GeminiHelper.GenerateMindmap(mindmapReply)))
  {
    var code := Upper(Field(subjectCode, ""));
    match DatabaseHelper.GetSubjectInfo(subjects, code)
    case None => NotFound(code)
    case Some(info) =>
      StudyContent(info.name, code, Field(examType, "semester"),
                   GeminiHelper.GenerateFlashcards(flashcardsReply), GeminiHelper.GenerateMindmap(mindmapReply))
  }

  /** `generate_notes_stream`: an unknown subject is a 404 and the model is
      not asked; otherwise the notes events. The generator catches the
      model's failure itself, so nothing escapes to the relay. */
  method GenerateNotesStream(subjects: DatabaseHelper.Dict<DatabaseHelper.SubjectEntry>,
                             subjectCode: Option<string>, model: GeminiHelper.ModelStream)
    returns (reply: Reply)
    requires DatabaseHelper.UniqueKeys(subjects)
    ensures var code := Upper(Field(subjectCode, ""));
            var info := DatabaseHelper.GetSubjectInfo(subjects, code);
            (info.None? ==> reply == NotFound(code))
            && (info.Some? ==>
                  reply == Events(Render(NotesFrames(info.value.name,
                                                     Source(GeminiHelper.Streamed(model, GeminiHelper.NotesErrorPrefix), None)))))
  {
    var code := Upper(Field(subjectCode, ""));
    var info := DatabaseHelper.GetSubjectInfo(subjects, code);
    if info.None? {
      return NotFound(code);
    }
    var items := GeminiHelper.GenerateStudyNotes(model);
    var events := NotesEvents(info.value.name, Source(items, None));
    reply := Events(events);
  }

  const MessageMissing := "Please provide a message"

  /** The frames of `chat_stream`: with a context, a single frame with the
      answer and `done` together; otherwise the relay of the chat stream. */
  function ChatFrames(context: string, answer: Result<string>, model: GeminiHelper.ModelStream): (r: seq<Frame>)
    ensures context != "" ==> r == [TextDone(GeminiHelper.AnswerQuestion(answer))]
    ensures context == "" ==> r == Relay(Source(GeminiHelper.Streamed(model, GeminiHelper.ChatErrorPrefix), None))
  {
    if context != "" then [TextDone(GeminiHelper.AnswerQuestion(answer))]
    else Relay(Source(GeminiHelper.Streamed(model, GeminiHelper.ChatErrorPrefix), None))
  }

  /** Every chat stream ends with exactly one terminal frame, and with a
      context it is that frame alone, carrying the answer. */
  lemma ChatFramesShape(context: string, answer: Result<string>, model: GeminiHelper.ModelStream)
    ensures EndsOnce(ChatFrames(context, answer, model))
    ensures context != "" ==>
              |ChatFrames(context, answer, model)| == 1 && ChatFrames(context, answer, model)[0].TextDone?
  {
    if context == "" {
      RelayEndsOnce(Source(GeminiHelper.Streamed(model, GeminiHelper.ChatErrorPrefix), None));
    }
  }

  /** `chat_stream`: an empty message is rejected before the model is
      asked; otherwise the chat events. */
  method ChatStream(message: Option<string>, context: Option<string>,
                    answer: Result<string>, model: GeminiHelper.ModelStream) returns (reply: Reply)
    ensures Field(message, "") == "" ==> reply == Rejected(400, MessageMissing)
    ensures Field(message, "") != "" ==> reply == Events(Render(ChatFrames(Field(context, ""), answer, model)))
  {
    if Field(message, "") == "" {
      return Rejected(400, MessageMissing);
    }
    if Field(context, "") != "" {
      reply := Events([Wire(TextDone(GeminiHelper.AnswerQuestion(answer)))]);
    } else {
      var items := GeminiHelper.ChatResponse(model);
      var events := RelayEvents(Source(items, None));
      reply := Events(events);
    }
  }

  /** What Flask's `jsonify` raises for the generator object that a
      generator function returns when it is called without `stream=True`. */
  const NotSerializable := "Object of type generator is not JSON serializable"

  /** `chat`: an empty message is a 400; with a context, the answer; without
      one, `chat_response` hands back a generator, which cannot be written
      as JSON, so the reply is a 500. */
  function Chat(message: Option<string>, context: Option<string>, answer: Result<string>): (r: Reply)
    ensures Field(message, "") == "" <==> r == Rejected(400, MessageMissing)
    ensures Field(message, "") != "" && Field(context, "") != "" ==> r == ChatAnswer(GeminiHelper.AnswerQuestion(answer))
    ensures Field(message, "") != "" && Field(context, "") == "" ==> r == Rejected(500, NotSerializable)
  {
    if Field(message, "") == "" then Rejected(400, MessageMissing)
    else if Field(context, "") != "" then ChatAnswer(GeminiHelper.AnswerQuestion(answer))
    else Rejected(500, NotSerializable)
  }

  // ----- schedules -----

  /** The `hours_per_day` field: absent, a JSON number, or JSON null (what
      the browser sends for `parseInt` of an empty input). */
  datatype Hours = HoursAbsent | HoursNumber(n: int) | HoursNull

  /** `create_schedule` (the non-streaming route): subjects and exam date
      are required; past that check it hands the generator returned by
      `create_study_schedule` to `jsonify`, which fails. */
  function CreateSchedule(subjects: Option<string>, examDate: Option<string>): (r: Reply)
    ensures r.Rejected?
    ensures r.status == 400 <==> Field(subjects, "") == "" || Field(examDate, "") == ""
  {
    if Field(subjects, "") == "" || Field(examDate, "") == "" then
      Rejected(400, "Please provide subjects and exam date")
    else Rejected(500, NotSerializable)
  }

  const FieldsMissing := "Please provide subjects, start date, and end date"
  const TooFewHours := "Minimum study hours is 2 hours per day"

  /** What comparing `None < 2` raises. */
  const NoneCompared := "'<' not supported between instances of 'NoneType' and 'int'"

  /** The checks `create_schedule_stream` makes before it streams, in
      order: the three text fields, then the hours (default 2). */
  function ScheduleStreamCheck(subjects: Option<string>, startDate: Option<string>,
                               endDate: Option<string>, hours: Hours): (r: Option<Reply>)
    ensures r.Some? ==> r.value.Rejected?
    ensures (Field(subjects, "") == "" || Field(startDate, "") == "" || Field(endDate, "") == "")
              ==> r == Some(Rejected(400, FieldsMissing))
    ensures r.None? <==>
              Field(subjects, "") != "" && Field(startDate, "") != "" && Field(endDate, "") != ""
              && (hours.HoursAbsent? || (hours.HoursNumber? && hours.n >= 2))
    ensures r == Some(Rejected(400, TooFewHours)) <==>
              Field(subjects, "") != "" && Field(startDate, "") != "" && Field(endDate, "") != ""
              && hours.HoursNumber? && hours.n < 2
    ensures (Field(subjects, "") != "" && Field(startDate, "") != "" && Field(endDate, "") != "" && hours.HoursNull?)
              ==> r == Some(Rejected(500, NoneCompared))
  {
    if Field(subjects, "") == "" || Field(startDate, "") == "" || Field(endDate, "") == "" then
      Some(Rejected(400, FieldsMissing))
    else
      match hours
      case HoursAbsent => None
      case HoursNumber(n) => if n < 2 then Some(Rejected(400, TooFewHours)) else None
      case HoursNull => Some(Rejected(500, NoneCompared))
  }

  /** What calling `create_study_schedule` with four positional arguments
      and `stream=True` raises: its fourth parameter is `stream` itself. */
  const ScheduleCallError := "GeminiHelper.create_study_schedule() got multiple values for argument 'stream'"

  /** `create_schedule_stream` as written: past the checks, its generator
      fails on the call and sends one error frame. */
  function ScheduleStreamAsWritten(subjects: Option<string>, startDate: Option<string>,
                                  endDate: Option<string>, hours: Hours): (r: Reply)
    ensures var check := ScheduleStreamCheck(subjects, startDate, endDate, hours);
            (check.Some? ==> r == check.value) && (check.None? ==> r == Events([Wire(Error(ScheduleCallError))]))
  {
    match ScheduleStreamCheck(subjects, startDate, endDate, hours)
    case Some(rejection) => rejection
    case None => Events([Wire(Error(ScheduleCallError))])
  }

  /** Whatever the model would answer, a request that passes the checks
      gets no schedule text: its only frame is the error. */
  lemma ScheduleStreamNeverStreams(subjects: Option<string>, startDate: Option<string>,
                                   endDate: Option<string>, hours: Hours)
    requires ScheduleStreamCheck(subjects, startDate, endDate, hours).None?
    ensures var r := ScheduleStreamAsWritten(subjects, startDate, endDate, hours);
            r.Events? && |r.events| == 1 && r.events[0] == Wire(Error(ScheduleCallError))
            && forall k :: 0 <= k < |r.events| ==> r.events[k] != Wire(Done)
  {
    WireDistinct(Error(ScheduleCallError), Done);
  }

  /** Events of different payloads are different texts. */
  lemma WireDistinct(f: Frame, g: Frame)
    requires Payload(f) != Payload(g)
    ensures Wire(f) != Wire(g)
  {
    assert Dumps(Payload(f)) == Wire(f)[6..|Wire(f)| - 2];
    assert Dumps(Payload(g)) == Wire(g)[6..|Wire(g)| - 2];
    DumpsRoundTrip(Payload(f));
    DumpsRoundTrip(Payload(g));
  }

  /** `create_schedule_stream` with the call it evidently intends: past the
      checks, the relay of the schedule generator. */
  method ScheduleStream(subjects: Option<string>, startDate: Option<string>,
                        endDate: Option<string>, hours: Hours, model: GeminiHelper.ModelStream)
    returns (reply: Reply)
    ensures var check := ScheduleStreamCheck(subjects, startDate, endDate, hours);
            (check.Some? ==> reply == check.value)
            && (check.None? ==>
                  reply == Events(Render(Relay(Source(GeminiHelper.Streamed(model, GeminiHelper.ScheduleErrorPrefix), None)))))
  {
    var check := ScheduleStreamCheck(subjects, startDate, endDate, hours);
    if check.Some? {
      return check.value;
    }
    var items := GeminiHelper.CreateStudySchedule(model);
    var events := RelayEvents(Source(items, None));
    reply := Events(events);
  }

  // ----- previous-year questions -----

  /** `get_pyqs`: a missing code is a 400; otherwise the subject's name (or
      the code) and its papers. */
  function GetPyqs(subjects: DatabaseHelper.Dict<DatabaseHelper.SubjectEntry>,
                   pyqs: DatabaseHelper.Dict<DatabaseHelper.Dict<seq<DatabaseHelper.YearPapers>>>,
                   subjectCode: Option<string>, examType: Option<string>): (r: Reply)
    requires DatabaseHelper.UniqueKeys(subjects) && DatabaseHelper.UniqueKeys(pyqs)
    requires forall i :: 0 <= i < |pyqs| ==> DatabaseHelper.UniqueKeys(pyqs[i].1)
    ensures var code := Upper(Field(subjectCode, ""));
            var info := DatabaseHelper.GetSubjectInfo(subjects, code);
            (code == "" <==> r == Rejected(400, "Please provide subject code"))
            && (code != "" ==> r == Pyqs(if info.Some? then info.value.name else code,
                                         DatabaseHelper.GetPyqsForSubject(pyqs, code, examType)))
  {
    var code := Upper(Field(subjectCode, ""));
    if code == "" then Rejected(400, "Please provide subject code")
    else
      var info := DatabaseHelper.GetSubjectInfo(subjects, code);
      Pyqs(if info.Some? then info.value.name else code, DatabaseHelper.GetPyqsForSubject(pyqs, code, examType))
  }

  // ----- the PDF download -----

  /** The label of an exam type in file names: the four known types get
      their capitalised label, any other passes through. */
  function ExamLabel(examType: string): (r: string)
    ensures examType == "internal1" ==> r == "Internal1"
    ensures examType == "internal2" ==> r == "Internal2"
    ensures examType == "internal3" ==> r == "Internal3"
    ensures examType == "semester" ==> r == "Semester"
    ensures examType !in {"internal1", "internal2", "internal3", "semester"} ==> r == examType
  {
    if examType == "internal1" then "Internal1"
    else if examType == "internal2" then "Internal2"
    else if examType == "internal3" then "Internal3"
    else if examType == "semester" then "Semester"
    else examType
  }

  /** `f"{subject_code}_{subject_name.replace(' ', '_')}_{exam_type_text}_Notes.pdf"`. */
  function PdfFilename(code: string, name: string, examType: string): (r: string)
    ensures var n := ReplaceChar(name, ' ', '_');
            r == code + "_" + n + "_" + ExamLabel(examType) + "_Notes.pdf"
            && |n| == |name| && ' ' !in n
  {
    code + "_" + ReplaceChar(name, ' ', '_') + "_" + ExamLabel(examType) + "_Notes.pdf"
  }

  /** The file name has no space when the code and the exam type have none,
      and always ends in `_Notes.pdf`. */
  lemma PdfFilenameShape(code: string, name: string, examType: string)
    requires ' ' !in code && ' ' !in examType
    ensures var f := PdfFilename(code, name, examType);
            ' ' !in f && |f| >= 10 && f[|f| - 10..] == "_Notes.pdf"
  {
    var f := PdfFilename(code, name, examType);
    var tag := ExamLabel(examType);
    assert ' ' !in tag;
    assert f[|f| - 10..] == "_Notes.pdf";
  }

  /** The message of the `AttributeError` the renderer call at app.py:78
      raises: `GeminiHelper` (utils/gemini_helper.py) has no method
      `generate_pdf_from_notes`. */
  const PdfRendererMissing := "'GeminiHelper' object has no attribute 'generate_pdf_from_notes'"

  /** `download_pdf` as written: past the notes check the renderer call
      raises, and the outer handler answers 500 with the exception's text. */
  function DownloadPdfAsWritten(notes: Option<string>): (r: Reply)
    ensures Field(notes, "") == "" <==> r == Rejected(400, "No notes provided")
    ensures Field(notes, "") != "" ==> r == Rejected(500, PdfRendererMissing)
  {
    if Field(notes, "") == "" then Rejected(400, "No notes provided")
    else Rejected(500, PdfRendererMissing)
  }

  /** As written the route never serves a file; once a renderer answers,
      non-empty notes and a non-empty PDF give the file. */
  lemma DownloadPdfNeverServes(notes: Option<string>, subjectName: Option<string>, examType: Option<string>,
                               subjectCode: Option<string>, pdf: Option<seq<bv8>>)
    ensures !DownloadPdfAsWritten(notes).PdfFile?
    ensures Field(notes, "") != "" && pdf.Some? && pdf.value != [] ==>
              DownloadPdf(notes, subjectName, examType, subjectCode, pdf).PdfFile?
  {
  }

  /** `download_pdf` with a renderer, its output passed in (None when it
      fails, as an empty buffer does): empty notes are a 400 before
      rendering, a missing PDF a 500, otherwise the file under its name. */
  function DownloadPdf(notes: Option<string>, subjectName: Option<string>, examType: Option<string>,
                       subjectCode: Option<string>, pdf: Option<seq<bv8>>): (r: Reply)
    ensures Field(notes, "") == "" <==> r == Rejected(400, "No notes provided")
    ensures Field(notes, "") != "" && (pdf.None? || pdf.value == []) ==> r == Rejected(500, "Failed to generate PDF")
    ensures Field(notes, "") != "" && pdf.Some? && pdf.value != [] ==>
              r == PdfFile(PdfFilename(Field(subjectCode, ""), Field(subjectName, "Study Notes"), Field(examType, "semester")),
                           pdf.value)
  {
    if Field(notes, "") == "" then Rejected(400, "No notes provided")
    else if pdf.None? || pdf.value == [] then Rejected(500, "Failed to generate PDF")
    else PdfFile(PdfFilename(Field(subjectCode, ""), Field(subjectName, "Study Notes"), Field(examType, "semester")),
                 pdf.value)
  }
}
