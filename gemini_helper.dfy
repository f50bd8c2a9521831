/** The parts of utils/gemini_helper.py that do not talk to the model:
    coercing a reply into a JSON payload, the error placeholders, the
    modules block of the prompts, and the streaming generators that filter
    the model's chunks and turn a failure into one last error fragment.

    The model itself is a parameter: a non-streamed reply is a `Result`
    (its text, or the message of the exception it raised) and a streamed
    reply is a `ModelStream`. */
module GeminiHelper {
  import opened Wrappers
  import opened Strings
  import opened Json
  import DatabaseHelper

  // ----- coercing a reply into a JSON payload -----

  /** The marker of a Markdown code block. */
  const Fence := "```"

  /** The marker of a Markdown code block tagged as JSON. */
  const JsonFence := "```json"

  /** `text[text.find(open):text.rfind(close) + 1]` when the first `open`
      comes before the last `close`; None otherwise. */
  function DelimitedSlice(text: string, open: char, close: char): (r: Option<string>)
    ensures r.Some? <==> Find(text, open) != -1 && RFind(text, close) + 1 > Find(text, open)
    ensures r.Some? ==>
              var v := r.value;
              |v| > 0 && v[0] == open && v[|v| - 1] == close && Contains(text, v)
              && v == text[Find(text, open)..RFind(text, close) + 1]
  {
    var start := Find(text, open);
    var end := RFind(text, close) + 1;
    if start != -1 && end > start then
      SliceContained(text, start, end);
      Some(text[start..end])
    else None
  }

  /** The extraction in `generate_flashcards` (with `[`, `]`) and
      `generate_mindmap` (with `{`, `}`), branch for branch: the stripped
      text when it already starts with `open`; inside a ```` ```json ```` or
      a ```` ``` ```` block the delimited slice when there is one; the
      stripped text otherwise. */
  function Extract(raw: string, open: char, close: char): (r: string)
    ensures var text := PyStrip(raw);
            r == text || (Contains(text, Fence) && DelimitedSlice(text, open, close) == Some(r))
  {
    var text := PyStrip(raw);
    if StartsWith(text, [open]) then text
    else if Contains(text, JsonFence) then
      ContainsPrefix(text, JsonFence, Fence);
      match DelimitedSlice(text, open, close)
      case Some(v) => v
      case None => text
    else if Contains(text, Fence) then
      match DelimitedSlice(text, open, close)
      case Some(v) => v
      case None => text
    else text
  }

  /** A text that starts with the opening delimiter is returned stripped and
      otherwise unchanged. */
  lemma ExtractKeepsOpened(raw: string, open: char, close: char)
    requires StartsWith(PyStrip(raw), [open])
    ensures Extract(raw, open, close) == PyStrip(raw)
  {
  }

  /** Without a fence, or without an `open` before a later `close`, the
      stripped text comes back unchanged. */
  lemma ExtractFallsBack(raw: string, open: char, close: char)
    requires !Contains(PyStrip(raw), Fence) || DelimitedSlice(PyStrip(raw), open, close).None?
    ensures Extract(raw, open, close) == PyStrip(raw)
  {
    var text := PyStrip(raw);
    if !Contains(text, Fence) && Contains(text, JsonFence) {
      ContainsPrefix(text, JsonFence, Fence);
    }
  }

  /** The ```` ```json ```` branch and the bare ```` ``` ```` branch agree:
      the result depends only on whether a fence occurs at all. */
  lemma ExtractDependsOnFenceOnly(raw: string, open: char, close: char)
    ensures var text := PyStrip(raw);
            Extract(raw, open, close) ==
              if StartsWith(text, [open]) then text
              else if Contains(text, Fence) && DelimitedSlice(text, open, close).Some? then
                DelimitedSlice(text, open, close).value
              else text
  {
    var text := PyStrip(raw);
    if Contains(text, JsonFence) {
      ContainsPrefix(text, JsonFence, Fence);
    }
  }

  /** A fenced reply with an ordered pair of delimiters yields the slice
      from the first `open` to the last `close`: it starts with `open`, ends
      with `close` and is a substring of the stripped reply. */
  lemma ExtractFenced(raw: string, open: char, close: char)
    requires var text := PyStrip(raw);
             !StartsWith(text, [open]) && Contains(text, Fence) && DelimitedSlice(text, open, close).Some?
    ensures var text := PyStrip(raw);
            var r := Extract(raw, open, close);
            r == text[Find(text, open)..RFind(text, close) + 1]
            && |r| > 0 && r[0] == open && r[|r| - 1] == close && Contains(text, r)
  {
    var text := PyStrip(raw);
    var v := DelimitedSlice(text, open, close).value;
    assert Extract(raw, open, close) == v by {
      ExtractDependsOnFenceOnly(raw, open, close);
    }
  }

  // ----- the error placeholders -----

  /** `json.dumps([{"question": "Error", "answer": message}])`. */
  function FlashcardPlaceholder(message: string): string {
    "[" + Dumps([("question", JString("Error")), ("answer", JString(message))]) + "]"
  }

  /** The opening of the mind-map placeholder, up to its subtopics array. */
  function MindmapHead(): string {
    "{" + DumpMember(("topic", JString("Error"))) + ", " + DumpString("subtopics") + ": ["
  }

  /** `json.dumps({"topic": "Error", "subtopics": [{"topic": message}]})`. */
  function MindmapPlaceholder(message: string): string {
    MindmapHead() + Dumps([("topic", JString(message))]) + "]}"
  }

  /** The flashcard placeholder is a one-element array whose card reads
      back as question "Error" with the message as its answer. */
  lemma FlashcardPlaceholderReadsBack(message: string)
    ensures var p := FlashcardPlaceholder(message);
            var card := [("question", JString("Error")), ("answer", JString(message))];
            |p| >= 2 && p[0] == '[' && p[|p| - 1] == ']'
            && ParseObject(p[1..|p| - 1]) == Some(card)
            && Member(card, "answer") == Some(JString(message))
  {
    var card := [("question", JString("Error")), ("answer", JString(message))];
    var p := FlashcardPlaceholder(message);
    assert p[1..|p| - 1] == Dumps(card);
    DumpsRoundTrip(card);
  }

  /** With plain keys and topic, the opening holds them quoted as they are. */
  lemma MindmapHeadOf(topicKey: string, topic: string, subtopicsKey: string)
    requires forall i :: 0 <= i < |topicKey| ==> Plain(topicKey[i])
    requires forall i :: 0 <= i < |topic| ==> Plain(topic[i])
    requires forall i :: 0 <= i < |subtopicsKey| ==> Plain(subtopicsKey[i])
    ensures "{" + DumpMember((topicKey, JString(topic))) + ", " + DumpString(subtopicsKey) + ": ["
            == "{" + Quote(topicKey) + ": " + Quote(topic) + ", " + Quote(subtopicsKey) + ": ["
  {
    PlainDumpString(topicKey);
    PlainDumpString(topic);
    PlainDumpString(subtopicsKey);
  }

  lemma Embedded(p: string, head: string, mid: string, tail: string)
    requires p == head + mid + tail
    ensures Contains(p, mid)
  {
    assert p[|head|..|head| + |mid|] == mid;
    SliceContained(p, |head|, |head| + |mid|);
  }

  /** The mind-map placeholder is the object with topic "Error" and, as the
      one element of its subtopics array, an object reading back as the
      message. */
  lemma MindmapPlaceholderShape(message: string)
    ensures var p := MindmapPlaceholder(message);
            var sub := [("topic", JString(message))];
            p == "{" + Quote("topic") + ": " + Quote("Error") + ", " + Quote("subtopics") + ": [" + Dumps(sub) + "]}"
            && Contains(p, Dumps(sub)) && ParseObject(Dumps(sub)) == Some(sub)
  {
    var sub := [("topic", JString(message))];
    MindmapHeadOf("topic", "Error", "subtopics");
    Embedded(MindmapPlaceholder(message), MindmapHead(), Dumps(sub), "]}");
    DumpsRoundTrip(sub);
  }

  /** `generate_flashcards` given the model's reply: the extracted array
      text, or the placeholder carrying the exception's message. */
  function GenerateFlashcards(reply: Result<string>): (r: string)
    ensures reply.Err? ==> r == FlashcardPlaceholder(reply.message)
    ensures reply.Ok? ==>
              var text := PyStrip(reply.value);
              r == text || (Contains(text, Fence) && DelimitedSlice(text, '[', ']') == Some(r))
  {
    match reply
    case Ok(text) => Extract(text, '[', ']')
    case Err(message) => FlashcardPlaceholder(message)
  }

  /** `generate_mindmap` given the model's reply: the extracted object
      text, or the placeholder carrying the exception's message. */
  function GenerateMindmap(reply: Result<string>): (r: string)
    ensures reply.Err? ==> r == MindmapPlaceholder(reply.message)
    ensures reply.Ok? ==>
              var text := PyStrip(reply.value);
              r == text || (Contains(text, Fence) && DelimitedSlice(text, '{', '}') == Some(r))
  {
    match reply
    case Ok(text) => Extract(text, '{', '}')
    case Err(message) => MindmapPlaceholder(message)
  }

  // ----- the modules block of the prompts -----

  /** `f"Module {m['id']}: {m['name']} - Topics: {', '.join(m['topics'])}"`. */
  function ModuleLine(m: DatabaseHelper.Module): string {
    "Module " + m.id + ": " + m.name + " - Topics: " + Join(m.topics, ", ")
  }

  function ModuleLines(modules: seq<DatabaseHelper.Module>): (r: seq<string>)
    ensures |r| == |modules| && forall i :: 0 <= i < |modules| ==> r[i] == ModuleLine(modules[i])
  {
    seq(|modules|, i requires 0 <= i < |modules| => ModuleLine(modules[i]))
  }

  /** `modules_text`: the module lines joined with line breaks. */
  function ModulesText(modules: seq<DatabaseHelper.Module>): string {
    Join(ModuleLines(modules), "\n")
  }

  predicate SingleLine(m: DatabaseHelper.Module) {
    '\n' !in m.id && '\n' !in m.name && forall t :: 0 <= t < |m.topics| ==> '\n' !in m.topics[t]
  }

  /** When no field holds a line break, the block has exactly one line per
      module, in module order, and no modules give an empty block. */
  lemma ModulesTextLines(modules: seq<DatabaseHelper.Module>)
    requires forall i :: 0 <= i < |modules| ==> SingleLine(modules[i])
    ensures |modules| == 0 ==> ModulesText(modules) == ""
    ensures |modules| > 0 ==> Split(ModulesText(modules), '\n') == ModuleLines(modules)
  {
    var lines := ModuleLines(modules);
    forall i | 0 <= i < |lines| ensures '\n' !in lines[i] {
      CharNotInJoin(modules[i].topics, ", ", '\n');
    }
    if |modules| > 0 {
      SplitJoin(lines, '\n');
    }
  }

  // ----- the streaming generators -----

  /** A streamed reply: the texts of the chunks the model produced, and the
      message of the exception that ended the stream, if one did. */
  datatype ModelStream = ModelStream(chunks: seq<string>, failure: Option<string>)

  /** The chunks with the empty ones left out, in order. */
  function NonEmpty(chunks: seq<string>): (r: seq<string>)
    ensures |r| <= |chunks|
    ensures forall k :: 0 <= k < |r| ==> r[k] != "" && r[k] in chunks
  {
    if |chunks| == 0 then []
    else
      var init := NonEmpty(chunks[..|chunks| - 1]);
      var last := chunks[|chunks| - 1];
      assert forall k :: 0 <= k < |init| ==> init[k] in chunks[..|chunks| - 1];
      if last == "" then init else init + [last]
  }

  /** Filtering distributes over concatenation. */
  lemma {:induction false} NonEmptyAppend(a: seq<string>, b: seq<string>)
    ensures NonEmpty(a + b) == NonEmpty(a) + NonEmpty(b)
    decreases |b|
  {
    if |b| == 0 {
      assert a + b == a;
    } else {
      var b' := b[..|b| - 1];
      NonEmptyAppend(a, b');
      assert (a + b)[..|a + b| - 1] == a + b';
    }
  }

  /** Dropping empty chunks does not change the text they make up. */
  lemma {:induction false} NonEmptyKeepsText(chunks: seq<string>)
    ensures Concat(NonEmpty(chunks)) == Concat(chunks)
    decreases |chunks|
  {
    if |chunks| > 0 {
      var init := chunks[..|chunks| - 1];
      var last := chunks[|chunks| - 1];
      NonEmptyKeepsText(init);
      assert chunks == init + [last];
      ConcatAppend(init, [last]);
      ConcatAppend(NonEmpty(init), [last]);
    }
  }

  /** What a streaming generator yields for a streamed reply: the non-empty
      chunks, then (after a failure) the prefixed message. */
  function Streamed(src: ModelStream, errorPrefix: string): seq<string> {
    NonEmpty(src.chunks) + (if src.failure.Some? then [errorPrefix + src.failure.value] else [])
  }

  /** The generator yields every non-empty chunk in order and nothing else
      before the end; a failure adds exactly one fragment, the prefixed
      message, and it comes last. */
  lemma StreamedShape(src: ModelStream, errorPrefix: string)
    ensures var out := Streamed(src, errorPrefix);
            var n := |NonEmpty(src.chunks)|;
            (src.failure.None? ==> out == NonEmpty(src.chunks))
            && (src.failure.Some? ==> |out| == n + 1 && out[..n] == NonEmpty(src.chunks)
                                      && out[n] == errorPrefix + src.failure.value)
            && forall k :: 0 <= k < n ==> out[k] != ""
  {
    var out := Streamed(src, errorPrefix);
    assert out[..|NonEmpty(src.chunks)|] == NonEmpty(src.chunks);
  }

  /** The text of the stream is the model's text, followed by the prefixed
      message after a failure. */
  lemma StreamedText(src: ModelStream, errorPrefix: string)
    ensures Concat(Streamed(src, errorPrefix)) ==
              Concat(src.chunks) + (if src.failure.Some? then errorPrefix + src.failure.value else "")
  {
    NonEmptyKeepsText(src.chunks);
    var tail := if src.failure.Some? then [errorPrefix + src.failure.value] else [];
    ConcatAppend(NonEmpty(src.chunks), tail);
  }

  /** The loop body shared by the three streaming generators: yield each
      chunk whose text is non-empty; on an exception, yield the prefixed
      message and stop. */
  method StreamChunks(src: ModelStream, errorPrefix: string) returns (out: seq<string>)
    ensures out == Streamed(src, errorPrefix)
  {
    out := [];
    var i := 0;
    while i < |src.chunks|
      invariant 0 <= i <= |src.chunks|
      invariant out == NonEmpty(src.chunks[..i])
    {
      var chunk := src.chunks[i];
      assert src.chunks[..i + 1][..i] == src.chunks[..i];
      if chunk != "" {
        out := out + [chunk];
      }
      i := i + 1;
    }
    assert src.chunks[..i] == src.chunks;
    if src.failure.Some? {
      out := out + [errorPrefix + src.failure.value];
    }
  }

  const NotesErrorPrefix := "Error generating study notes: "
  const ScheduleErrorPrefix := "Error generating schedule: "
  const ChatErrorPrefix := "Error: "
  const AnswerErrorPrefix := "Error answering question: "

  /** `generate_study_notes(..., stream=True)`. */
  method GenerateStudyNotes(src: ModelStream) returns (out: seq<string>)
    ensures out == Streamed(src, NotesErrorPrefix)
  {
    out := StreamChunks(src, NotesErrorPrefix);
  }

  /** `create_study_schedule(..., stream=True)`. */
  method CreateStudySchedule(src: ModelStream) returns (out: seq<string>)
    ensures out == Streamed(src, ScheduleErrorPrefix)
  {
    out := StreamChunks(src, ScheduleErrorPrefix);
  }

  /** `chat_response(..., stream=True)`. */
  method ChatResponse(src: ModelStream) returns (out: seq<string>)
    ensures out == Streamed(src, ChatErrorPrefix)
  {
    out := StreamChunks(src, ChatErrorPrefix);
  }

  /** `answer_question`: the reply's text, or the prefixed message. */
  function AnswerQuestion(reply: Result<string>): (r: string)
    ensures reply.Ok? ==> r == reply.value
    ensures reply.Err? ==> r == AnswerErrorPrefix + reply.message
  {
    match reply
    case Ok(text) => text
    case Err(message) => AnswerErrorPrefix + message
  }
}
