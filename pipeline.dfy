/** The server's event streams as the browser reads them: the events that
    app.py writes, cut into reads in any way, fed to the read loop of
    static/js/script.js. Each frame is one `data: ` line and a blank line,
    so the client sees exactly the frames' texts and flags, whatever the
    reads are. */
module Pipeline {
  import opened Wrappers
  import opened Strings
  import opened Json
  import opened App
  import opened ScriptSse
  import GeminiHelper
  import opened ScriptTimer

  // ----- from events to lines -----

  /** Events whose `data: ` lines are `ds`: each line and a blank line. */
  function Events(ds: seq<string>): (r: seq<string>)
    ensures |r| == |ds| && forall k :: 0 <= k < |ds| ==> r[k] == ds[k] + "\n\n"
  {
    seq(|ds|, k requires 0 <= k < |ds| => ds[k] + "\n\n")
  }

  /** The lines of those events: each data line, then the blank line that
      ends the event. */
  function EventLines(ds: seq<string>): (r: seq<string>)
    ensures |r| == 2 * |ds|
  {
    if |ds| == 0 then [] else EventLines(ds[..|ds| - 1]) + [ds[|ds| - 1], ""]
  }

  /** The text of the events is their lines joined by newlines, with
      nothing after the last newline. */
  lemma {:induction false} EventsText(ds: seq<string>)
    ensures Concat(Events(ds)) == Join(EventLines(ds) + [""], "\n")
  {
    if |ds| > 0 {
      var p := ds[..|ds| - 1];
      var d := ds[|ds| - 1];
      var l := EventLines(p);
      assert Concat(Events(ds)) == Concat(Events(p)) + (d + "\n\n") by {
        assert Events(ds) == Events(p) + [d + "\n\n"];
        ConcatAppend(Events(p), [d + "\n\n"]);
        assert Concat([d + "\n\n"]) == d + "\n\n";
      }
      EventsText(p);
      assert Join(l + [""], "\n") + d == Join(l + [d], "\n") by {
        JoinExtendLast(l, "", d, "\n");
        assert "" + d == d;
      }
      assert Join(l + [d], "\n") + "\n\n" == Join(EventLines(ds) + [""], "\n") by {
        JoinAppend(l + [d], ["", ""], "\n");
        assert Join(["", ""], "\n") == "\n";
        assert EventLines(ds) + [""] == (l + [d]) + ["", ""];
      }
    }
  }

  lemma {:induction false} EventLinesNoNewline(ds: seq<string>)
    requires forall k :: 0 <= k < |ds| ==> '\n' !in ds[k]
    ensures forall k :: 0 <= k < |EventLines(ds)| ==> '\n' !in EventLines(ds)[k]
  {
    if |ds| > 0 {
      var p := ds[..|ds| - 1];
      assert forall k :: 0 <= k < |p| ==> p[k] == ds[k];
      EventLinesNoNewline(p);
      NewlineFreeAppend(EventLines(p), [ds[|ds| - 1], ""]);
    }
  }

  /** When no data line holds a newline, the complete lines the client
      handles are exactly the events' lines. */
  lemma CompleteEventLines(ds: seq<string>)
    requires forall k :: 0 <= k < |ds| ==> '\n' !in ds[k]
    ensures CompleteLines(Concat(Events(ds))) == EventLines(ds)
  {
    var parts := EventLines(ds) + [""];
    EventsText(ds);
    EventLinesNoNewline(ds);
    NewlineFreeAppend(EventLines(ds), [""]);
    SplitJoin(parts, '\n');
    assert parts[..|parts| - 1] == EventLines(ds);
  }

  /** When `handle` gives each data line its effect and does nothing on a
      blank line, handling the events' lines combines those effects. */
  lemma {:induction false} EventLinesEffects(ds: seq<string>, es: seq<LineEffect>, handle: string -> LineEffect)
    requires |es| == |ds| && handle("") == NoEffect
    requires forall k :: 0 <= k < |ds| ==> handle(ds[k]) == es[k]
    ensures Fold(Effects(EventLines(ds), handle)) == Fold(es)
  {
    if |ds| > 0 {
      var p := ds[..|ds| - 1];
      var d := ds[|ds| - 1];
      var q := es[..|es| - 1];
      var e := es[|es| - 1];
      var l := EventLines(p);
      var pair := [d, ""];
      assert forall k :: 0 <= k < |p| ==> p[k] == ds[k] && q[k] == es[k];
      EventLinesEffects(p, q, handle);
      var el := Effects(l, handle);
      EffectsAppend(l, pair, handle);
      assert pair[..1] == [d];
      assert Effects(pair, handle) == [e, NoEffect];
      assert Effects(EventLines(ds), handle) == (el + [e]) + [NoEffect];
      FoldStep(el + [e], NoEffect);
      CombineNoEffect(Fold(el + [e]));
      FoldStep(el, e);
    }
  }

  // ----- the server's frames -----

  /** The line an event's `data: ` field makes. */
  function DataLine(f: Frame): string {
    DataPrefix + Dumps(Payload(f))
  }

  function DataLines(fs: seq<Frame>): (r: seq<string>)
    ensures |r| == |fs| && forall k :: 0 <= k < |fs| ==> r[k] == DataLine(fs[k])
  {
    seq(|fs|, k requires 0 <= k < |fs| => DataLine(fs[k]))
  }

  /** An event is its data line and a blank line; the line holds no newline. */
  lemma WireLine(f: Frame)
    ensures Wire(f) == DataLine(f) + "\n\n" && '\n' !in DataLine(f)
  {
    ObjectEvent(Payload(f));
  }

  lemma ObjectEvent(o: Object)
    ensures "data: " + Dumps(o) + "\n\n" == DataPrefix + Dumps(o) + "\n\n"
    ensures '\n' !in DataPrefix + Dumps(o)
  {
    DumpsIsOneLine(o);
  }

  /** What the server writes is the events of its frames' data lines. */
  lemma RenderEvents(fs: seq<Frame>)
    ensures Render(fs) == Events(DataLines(fs))
    ensures forall k :: 0 <= k < |fs| ==> '\n' !in DataLines(fs)[k]
  {
    forall k | 0 <= k < |fs| ensures Render(fs)[k] == Events(DataLines(fs))[k] && '\n' !in DataLines(fs)[k] {
      WireLine(fs[k]);
    }
  }

  /** What the client makes of each frame: the name frame adds nothing, a
      text is appended, `done` is seen, and an error is noticed only when
      its message is not empty. */
  function FrameEffect(f: Frame): LineEffect {
    match f
    case SubjectName(_) => NoEffect
    case Text(t) => LineEffect(t, false, false)
    case Done => LineEffect("", true, false)
    case TextDone(t) => LineEffect(t, true, false)
    case Error(m) => LineEffect("", false, m != "")
  }

  function FrameEffects(fs: seq<Frame>): (r: seq<LineEffect>)
    ensures |r| == |fs| && forall k :: 0 <= k < |fs| ==> r[k] == FrameEffect(fs[k])
  {
    seq(|fs|, k requires 0 <= k < |fs| => FrameEffect(fs[k]))
  }

  lemma FrameEffectsAppend(a: seq<Frame>, b: seq<Frame>)
    ensures FrameEffects(a + b) == FrameEffects(a) + FrameEffects(b)
  {
    var l := FrameEffects(a + b);
    var r := FrameEffects(a) + FrameEffects(b);
    forall k | 0 <= k < |l| ensures l[k] == r[k] {
      if k >= |a| {
        assert (a + b)[k] == b[k - |a|];
      } else {
        assert (a + b)[k] == a[k];
      }
    }
  }

  /** Handling a frame's data line has that frame's effect. */
  lemma FrameLineEffect(f: Frame)
    ensures HandleLine(DataLine(f)) == FrameEffect(f)
  {
    PayloadEffect(f);
    FrameLine(f, FrameEffect(f));
  }

  /** A frame's payload, read as the client reads it, has the frame's effect. */
  lemma PayloadEffect(f: Frame)
    ensures var o := Payload(f); LineEffect(TextOf(o), Truthy(Member(o, "done")), Truthy(Member(o, "error"))) == FrameEffect(f)
  {
  }

  /** A frame whose payload has the frame's effect: its data line has it too. */
  lemma FrameLine(f: Frame, e: LineEffect)
    requires var o := Payload(f); LineEffect(TextOf(o), Truthy(Member(o, "done")), Truthy(Member(o, "error"))) == e
    requires FrameEffect(f) == e
    ensures HandleLine(DataLine(f)) == FrameEffect(f)
  {
    var o := Payload(f);
    HandleDataLine(o);
    assert DataLine(f) == DataPrefix + Dumps(o);
  }

  /** However the server's events are cut into reads, the client ends with
      the frames' combined effect. */
  lemma ClientView(fs: seq<Frame>, chunks: seq<string>)
    requires Concat(chunks) == Concat(Render(fs))
    ensures Fold(Effects(CompleteLines(Concat(chunks)), HandleLine)) == Fold(FrameEffects(fs))
  {
    var ds := DataLines(fs);
    RenderEvents(fs);
    CompleteEventLines(ds);
    forall k | 0 <= k < |ds| ensures HandleLine(ds[k]) == FrameEffects(fs)[k] {
      FrameLineEffect(fs[k]);
    }
    HandleBlankLine();
    EventLinesEffects(ds, FrameEffects(fs), HandleLine);
  }

  /** The client's read loop over a server's events, however they are cut
      into reads: it ends with the frames' combined effect. */
  method Receive(fs: seq<Frame>, chunks: seq<string>) returns (text: string, sawDone: bool, sawError: bool)
    requires Concat(chunks) == Concat(Render(fs))
    ensures LineEffect(text, sawDone, sawError) == Fold(FrameEffects(fs))
  {
    text, sawDone, sawError := ReadStream(chunks);
    ClientView(fs, chunks);
  }

  /** A relay that did not fail shows the items' text and `done`, and no
      error. */
  lemma RelayView(items: seq<string>)
    ensures Fold(FrameEffects(Relay(Source(items, None)))) == LineEffect(Concat(items), true, false)
  {
    var fs := Relay(Source(items, None));
    var es := FrameEffects(fs);
    FoldMeaning(es);
    forall i | 0 <= i < |es| ensures Texts(es)[i] == (items + [""])[i] && !es[i].error {
      if i < |items| {
        assert fs[i] == Text(items[i]);
      } else {
        assert fs[i] == Done;
      }
    }
    assert Texts(es) == items + [""];
    ConcatAppend(items, [""]);
    assert Concat([""]) == "";
    assert es[|items|].done;
  }

  // ----- the routes end to end -----

  /** `generateStudyContent` reading `generate_notes_stream`: the notes are
      the model's text, followed by the prefixed message when the model
      failed; the failure reaches the client as notes, never as an error. */
  method ReceiveNotes(name: string, model: GeminiHelper.ModelStream, chunks: seq<string>)
    returns (text: string, sawDone: bool, sawError: bool)
    requires Concat(chunks) == Concat(Render(NotesFrames(name, Source(GeminiHelper.Streamed(model, GeminiHelper.NotesErrorPrefix), None))))
    ensures text == Concat(model.chunks) + (if model.failure.Some? then GeminiHelper.NotesErrorPrefix + model.failure.value else "")
    ensures sawDone && !sawError
  {
    var items := GeminiHelper.Streamed(model, GeminiHelper.NotesErrorPrefix);
    text, sawDone, sawError := Receive(NotesFrames(name, Source(items, None)), chunks);
    NotesView(name, items);
    GeminiHelper.StreamedText(model, GeminiHelper.NotesErrorPrefix);
  }

  /** The name frame adds nothing to what the relay shows. */
  lemma NotesView(name: string, items: seq<string>)
    ensures Fold(FrameEffects(NotesFrames(name, Source(items, None)))) == LineEffect(Concat(items), true, false)
  {
    var r := Relay(Source(items, None));
    var head := [SubjectName(name)];
    assert NotesFrames(name, Source(items, None)) == head + r;
    FrameEffectsAppend(head, r);
    assert FrameEffects(head) == [NoEffect] by {
      assert FrameEffect(head[0]) == NoEffect;
    }
    FoldAppend([NoEffect], FrameEffects(r));
    assert Fold([NoEffect]) == NoEffect;
    RelayView(items);
    assert "" + Concat(items) == Concat(items);
  }

  /** `sendMessage` reading `chat_stream`: with a context the answer, without
      one the model's text and, after a failure, the prefixed message. */
  method ReceiveChat(context: string, answer: Result<string>, model: GeminiHelper.ModelStream, chunks: seq<string>)
    returns (text: string, sawDone: bool, sawError: bool)
    requires Concat(chunks) == Concat(Render(ChatFrames(context, answer, model)))
    ensures context != "" ==> text == GeminiHelper.AnswerQuestion(answer)
    ensures context == "" ==>
              text == Concat(model.chunks) + (if model.failure.Some? then GeminiHelper.ChatErrorPrefix + model.failure.value else "")
    ensures sawDone && !sawError
  {
    text, sawDone, sawError := Receive(ChatFrames(context, answer, model), chunks);
    ChatView(context, answer, model);
  }

  lemma ChatView(context: string, answer: Result<string>, model: GeminiHelper.ModelStream)
    ensures var v := Fold(FrameEffects(ChatFrames(context, answer, model)));
            v.done && !v.error
            && (context != "" ==> v.text == GeminiHelper.AnswerQuestion(answer))
            && (context == "" ==>
                  v.text == Concat(model.chunks) + (if model.failure.Some? then GeminiHelper.ChatErrorPrefix + model.failure.value else ""))
  {
    if context != "" {
      SingleFrameView(TextDone(GeminiHelper.AnswerQuestion(answer)));
    } else {
      RelayView(GeminiHelper.Streamed(model, GeminiHelper.ChatErrorPrefix));
      GeminiHelper.StreamedText(model, GeminiHelper.ChatErrorPrefix);
    }
  }

  lemma SingleFrameView(f: Frame)
    ensures Fold(FrameEffects([f])) == FrameEffect(f)
  {
    assert FrameEffects([f]) == [FrameEffect(f)];
    assert "" + FrameEffect(f).text == FrameEffect(f).text;
  }

  /** A stream that is a single error frame, as `create_schedule_stream`
      as written sends: no text and no `done`, and the error is noticed
      exactly when its message is not empty. */
  method ReceiveError(message: string, chunks: seq<string>) returns (text: string, sawDone: bool, sawError: bool)
    requires Concat(chunks) == Concat(Render([Error(message)]))
    ensures text == "" && !sawDone && (sawError <==> message != "")
  {
    text, sawDone, sawError := Receive([Error(message)], chunks);
    SingleFrameView(Error(message));
  }

  /** `generateSchedule` reading `create_schedule_stream` with the intended
      call: the model's schedule text and `done`. */
  method ReceiveSchedule(model: GeminiHelper.ModelStream, chunks: seq<string>)
    returns (text: string, sawDone: bool, sawError: bool)
    requires Concat(chunks) == Concat(Render(Relay(Source(GeminiHelper.Streamed(model, GeminiHelper.ScheduleErrorPrefix), None))))
    ensures text == Concat(model.chunks) + (if model.failure.Some? then GeminiHelper.ScheduleErrorPrefix + model.failure.value else "")
    ensures sawDone && !sawError
  {
    var items := GeminiHelper.Streamed(model, GeminiHelper.ScheduleErrorPrefix);
    text, sawDone, sawError := Receive(Relay(Source(items, None)), chunks);
    RelayView(items);
    GeminiHelper.StreamedText(model, GeminiHelper.ScheduleErrorPrefix);
  }

  // ----- the schedule request -----

  /** The JSON body `generateSchedule` posts, by the fields the server
      reads. */
  datatype ScheduleBody = ScheduleBody(subjects: string, examDate: Option<string>,
                                       startDate: Option<string>, endDate: Option<string>, hours: Hours)

  /** `parseInt(hoursPerDay)` as `JSON.stringify` writes it: NaN becomes
      null. */
  function HoursSent(input: string): (r: Hours)
    ensures ParseIntJs(input).None? <==> r == HoursNull
    ensures ParseIntJs(input).Some? ==> r == HoursNumber(ParseIntJs(input).value)
  {
    match ParseIntJs(input)
    case None => HoursNull
    case Some(n) => HoursNumber(n)
  }

  /** The checks `create_schedule_stream` makes on a posted body. */
  function ServerCheck(b: ScheduleBody): Option<Reply> {
    ScheduleStreamCheck(Some(b.subjects), b.startDate, b.endDate, b.hours)
  }

  /** `generateSchedule` as written: nothing is sent when the trimmed
      subjects or the exam date are empty; otherwise the subjects, the exam
      date and the hours, and no start or end date. */
  function ScheduleRequestAsWritten(subjectsInput: string, examDate: string, hoursInput: string): (r: Option<ScheduleBody>)
    ensures r.Some? <==> JsTrim(subjectsInput) != "" && examDate != ""
    ensures r.Some? ==> r.value.startDate.None? && r.value.endDate.None?
  {
    var subjects := JsTrim(subjectsInput);
    if subjects == "" || examDate == "" then None
    else Some(ScheduleBody(subjects, Some(examDate), None, None, HoursSent(hoursInput)))
  }

  /** Every request the page sends is rejected with 400: the server wants a
      start and an end date, which the page never sends. */
  lemma ScheduleRequestRejected(subjectsInput: string, examDate: string, hoursInput: string)
    requires ScheduleRequestAsWritten(subjectsInput, examDate, hoursInput).Some?
    ensures ServerCheck(ScheduleRequestAsWritten(subjectsInput, examDate, hoursInput).value) == Some(Rejected(400, FieldsMissing))
  {
  }

  /** The request with the dates the server reads: today as `start_date`
      and the exam date as `end_date`. */
  function ScheduleRequest(subjectsInput: string, examDate: string, today: string, hoursInput: string): (r: Option<ScheduleBody>)
    ensures r.Some? <==> JsTrim(subjectsInput) != "" && examDate != ""
    ensures r.Some? ==> r.value.startDate == Some(today) && r.value.endDate == Some(examDate)
  {
    var subjects := JsTrim(subjectsInput);
    if subjects == "" || examDate == "" then None
    else Some(ScheduleBody(subjects, Some(examDate), Some(today), Some(examDate), HoursSent(hoursInput)))
  }

  /** The corrected request passes the server's checks exactly when the
      hours read as at least 2; an hours input with no number is sent as
      null, which the server's comparison rejects with 500. */
  lemma ScheduleRequestAccepted(subjectsInput: string, examDate: string, today: string, hoursInput: string)
    requires today != "" && ScheduleRequest(subjectsInput, examDate, today, hoursInput).Some?
    ensures var check := ServerCheck(ScheduleRequest(subjectsInput, examDate, today, hoursInput).value);
            (check.None? <==> ParseIntJs(hoursInput).Some? && ParseIntJs(hoursInput).value >= 2)
            && (ParseIntJs(hoursInput).None? ==> check == Some(Rejected(500, NoneCompared)))
            && (ParseIntJs(hoursInput).Some? && ParseIntJs(hoursInput).value < 2 ==> check == Some(Rejected(400, TooFewHours)))
  {
  }
}
