/** The server-sent-events reader of static/js/script.js, shared by
    `generateStudyContent`, `sendMessage` and `generateSchedule`: every
    decoded read is appended to a buffer, the buffer is split at newlines,
    the last piece is kept as the new buffer and each complete line is
    handled. A line that is `data: ` followed by a JSON object contributes
    its `text` to the accumulated text; its `done` and `error` fields are
    noticed. A line that does not parse is logged and skipped.

    The chunks are the already decoded strings (the `TextDecoder` is not
    modelled), so a stream is a sequence of strings. */
module ScriptSse {
  import opened Wrappers
  import opened Strings
  import opened Json

  // ----- one line -----

  /** What handling one line does: the text appended, and whether a truthy
      `done` or `error` field was seen. */
  datatype LineEffect = LineEffect(text: string, done: bool, error: bool)

  const NoEffect := LineEffect("", false, false)

  /** JavaScript truthiness of a field that may be missing. */
  predicate Truthy(v: Option<Value>) {
    match v
    case None => false
    case Some(JString(s)) => s != ""
    case Some(JTrue) => true
    case Some(JFalse) => false
    case Some(JNull) => false
  }

  /** What `fullText += data.text` appends when `data.text` is truthy: a
      string is appended as it is and `true` as its text. */
  function TextOf(o: Object): (r: string)
    ensures Member(o, "text").None? ==> r == ""
    ensures Member(o, "text").Some? && Member(o, "text").value.JString? ==> r == Member(o, "text").value.str
    ensures Member(o, "text") == Some(JTrue) ==> r == "true"
    ensures !Truthy(Member(o, "text")) ==> r == ""
  {
    match Member(o, "text")
    case Some(JString(s)) => s
    case Some(JTrue) => "true"
    case _ => ""
  }

  const DataPrefix := "data: "

  /** The body of the `for (const line of lines)` loop. */
  function HandleLine(line: string): LineEffect {
    var t := JsTrim(line);
    if !StartsWith(t, DataPrefix) then NoEffect
    else
      var json := t[6..];
      if json == "" then NoEffect
      else
        match ParseObject(json)
        case None => NoEffect
        case Some(o) => LineEffect(TextOf(o), Truthy(Member(o, "done")), Truthy(Member(o, "error")))
  }

  /** The effect of each line, in order, when each is handled by `handle`
      (the read loop's is `HandleLine`). */
  function Effects(lines: seq<string>, handle: string -> LineEffect): (r: seq<LineEffect>)
    ensures |r| == |lines|
  {
    if |lines| == 0 then [] else Effects(lines[..|lines| - 1], handle) + [handle(lines[|lines| - 1])]
  }

  lemma {:induction false} EffectsAppend(a: seq<string>, b: seq<string>, handle: string -> LineEffect)
    ensures Effects(a + b, handle) == Effects(a, handle) + Effects(b, handle)
    decreases |b|
  {
    if |b| == 0 {
      assert a + b == a;
    } else {
      var c := b[..|b| - 1];
      assert (a + b)[..|a + b| - 1] == a + c;
      assert (a + b)[|a + b| - 1] == b[|b| - 1];
      EffectsAppend(a, c, handle);
    }
  }

  /** Handling one more line: its text is appended and its flags are or-ed
      in, as `fullText += data.text` and the checks of `done` and `error`
      do. */
  function Combine(acc: LineEffect, e: LineEffect): LineEffect {
    LineEffect(acc.text + e.text, acc.done || e.done, acc.error || e.error)
  }

  /** The combined effect of handling the effects in order. */
  function Fold(es: seq<LineEffect>): LineEffect {
    if |es| == 0 then NoEffect else Combine(Fold(es[..|es| - 1]), es[|es| - 1])
  }

  lemma FoldStep(a: seq<LineEffect>, e: LineEffect)
    ensures Fold(a + [e]) == Combine(Fold(a), e)
  {
    assert (a + [e])[..|a|] == a;
  }

  /** A line with no effect changes nothing. */
  lemma CombineNoEffect(acc: LineEffect)
    ensures Combine(acc, NoEffect) == acc
  {
    assert acc.text + "" == acc.text;
  }

  lemma {:induction false} FoldAppend(a: seq<LineEffect>, b: seq<LineEffect>)
    ensures Fold(a + b) == Combine(Fold(a), Fold(b))
    decreases |b|
  {
    if |b| == 0 {
      assert a + b == a;
    } else {
      var c := b[..|b| - 1];
      assert (a + b)[..|a + b| - 1] == a + c;
      assert (a + b)[|a + b| - 1] == b[|b| - 1];
      FoldAppend(a, c);
    }
  }

  /** The texts of the effects, in order. */
  function Texts(es: seq<LineEffect>): (r: seq<string>)
    ensures |r| == |es| && forall k :: 0 <= k < |es| ==> r[k] == es[k].text
  {
    if |es| == 0 then [] else Texts(es[..|es| - 1]) + [es[|es| - 1].text]
  }

  /** The combined text is the effects' texts one after another; `done`
      (`error`) was seen exactly when some effect saw it. */
  lemma {:induction false} FoldMeaning(es: seq<LineEffect>)
    ensures Fold(es).text == Concat(Texts(es))
    ensures Fold(es).done <==> exists i :: 0 <= i < |es| && es[i].done
    ensures Fold(es).error <==> exists i :: 0 <= i < |es| && es[i].error
  {
    if |es| > 0 {
      var p := es[..|es| - 1];
      var e := es[|es| - 1];
      FoldMeaning(p);
      assert Texts(es) == Texts(p) + [e.text];
      ConcatAppend(Texts(p), [e.text]);
      assert Concat([e.text]) == e.text;
      assert forall i :: 0 <= i < |p| ==> es[i] == p[i];
      if Fold(es).done && !Fold(p).done {
        assert es[|es| - 1].done;
      }
      if Fold(es).error && !Fold(p).error {
        assert es[|es| - 1].error;
      }
    }
  }

  // ----- the buffer -----

  /** The lines a text holds before its last newline. */
  function CompleteLines(s: string): seq<string> {
    var parts := Split(s, '\n');
    parts[..|parts| - 1]
  }

  /** One read: `buffer += chunk`, `lines = buffer.split('\n')`,
      `buffer = lines.pop() || ''`. The complete lines joined by newlines
      and followed by the kept remainder are the old buffer plus the read,
      and no newline is left in any of them. */
  method SplitBuffer(buffer: string, chunk: string) returns (lines: seq<string>, rest: string)
    ensures Join(lines + [rest], "\n") == buffer + chunk
    ensures '\n' !in rest
    ensures forall k :: 0 <= k < |lines| ==> '\n' !in lines[k]
  {
    var joined := buffer + chunk;
    var parts := Split(joined, '\n');
    lines := parts[..|parts| - 1];
    rest := parts[|parts| - 1];
    assert parts == lines + [rest];
    JoinSplit(joined, '\n');
  }

  /** Replacing the last piece of a join by pieces that join to it. */
  lemma JoinReplaceLast(p: seq<string>, b: string, q: seq<string>)
    requires |q| > 0 && Join(q, "\n") == b
    ensures Join(p + [b], "\n") == Join(p + q, "\n")
  {
    if |p| > 0 {
      JoinAppend(p, [b], "\n");
      JoinAppend(p, q, "\n");
    } else {
      assert p + [b] == [b] && p + q == q;
    }
  }

  // ----- the read loop -----

  /** The read loop: handles each complete line of the stream in order and
      discards what is left after the last newline when the stream ends.
      How the text is cut into reads makes no difference: the result is a
      function of the whole text. */
  method ReadStream(chunks: seq<string>) returns (text: string, sawDone: bool, sawError: bool)
    ensures LineEffect(text, sawDone, sawError) == Fold(Effects(CompleteLines(Concat(chunks)), HandleLine))
  {
    ghost var lines: seq<string> := [];
    var buffer := "";
    var acc := NoEffect;
    var i := 0;
    while i < |chunks|
      invariant 0 <= i <= |chunks|
      invariant Join(lines + [buffer], "\n") == Concat(chunks[..i])
      invariant forall k :: 0 <= k < |lines| ==> '\n' !in lines[k]
      invariant '\n' !in buffer
      invariant acc == Fold(Effects(lines, HandleLine))
    {
      var added, rest := SplitBuffer(buffer, chunks[i]);
      BufferStep(lines, buffer, chunks, i, added, rest);
      var t, d, err := HandleLines(added);
      EffectsAppend(lines, added, HandleLine);
      FoldAppend(Effects(lines, HandleLine), Effects(added, HandleLine));
      acc := Combine(acc, LineEffect(t, d, err));
      NewlineFreeAppend(lines, added);
      lines := lines + added;
      buffer := rest;
      i := i + 1;
    }
    assert chunks[..i] == chunks;
    LastPieceDropped(lines, buffer);
    text, sawDone, sawError := acc.text, acc.done, acc.error;
  }

  /** After a read, the lines so far, the new complete lines and the new
      remainder join to all the text read. */
  lemma BufferStep(lines: seq<string>, buffer: string, chunks: seq<string>, i: nat,
                   added: seq<string>, rest: string)
    requires i < |chunks|
    requires Join(lines + [buffer], "\n") == Concat(chunks[..i])
    requires Join(added + [rest], "\n") == buffer + chunks[i]
    ensures Join((lines + added) + [rest], "\n") == Concat(chunks[..i + 1])
  {
    assert Join(lines + [buffer + chunks[i]], "\n") == Concat(chunks[..i + 1]) by {
      JoinExtendLast(lines, buffer, chunks[i], "\n");
      assert chunks[..i + 1] == chunks[..i] + [chunks[i]];
      ConcatAppend(chunks[..i], [chunks[i]]);
      assert Concat([chunks[i]]) == chunks[i];
    }
    JoinReplaceLast(lines, buffer + chunks[i], added + [rest]);
    assert lines + (added + [rest]) == (lines + added) + [rest];
  }

  /** The complete lines of newline-free pieces joined by newlines are all
      the pieces but the last. */
  lemma LastPieceDropped(lines: seq<string>, buffer: string)
    requires forall k :: 0 <= k < |lines| ==> '\n' !in lines[k]
    requires '\n' !in buffer
    ensures CompleteLines(Join(lines + [buffer], "\n")) == lines
  {
    NewlineFreeAppend(lines, [buffer]);
    SplitJoin(lines + [buffer], '\n');
    assert (lines + [buffer])[..|lines|] == lines;
  }

  lemma NewlineFreeAppend(a: seq<string>, b: seq<string>)
    requires forall k :: 0 <= k < |a| ==> '\n' !in a[k]
    requires forall k :: 0 <= k < |b| ==> '\n' !in b[k]
    ensures forall k :: 0 <= k < |a + b| ==> '\n' !in (a + b)[k]
  {
  }

  /** The `for (const line of lines)` loop over the complete lines of one
      read. */
  method HandleLines(lines: seq<string>) returns (text: string, sawDone: bool, sawError: bool)
    ensures LineEffect(text, sawDone, sawError) == Fold(Effects(lines, HandleLine))
  {
    var acc := NoEffect;
    var k := 0;
    while k < |lines|
      invariant 0 <= k <= |lines|
      invariant acc == Fold(Effects(lines[..k], HandleLine))
    {
      var e := HandleLine(lines[k]);
      EffectsStep(lines, k, HandleLine);
      acc := Combine(acc, e);
      k := k + 1;
    }
    assert lines[..k] == lines;
    text, sawDone, sawError := acc.text, acc.done, acc.error;
  }

  lemma EffectsStep(lines: seq<string>, k: nat, handle: string -> LineEffect)
    requires k < |lines|
    ensures Fold(Effects(lines[..k + 1], handle)) == Combine(Fold(Effects(lines[..k], handle)), handle(lines[k]))
  {
    assert lines[..k + 1][..k] == lines[..k];
  }

  /** Text with no newline holds no complete line: nothing after the last
      newline is ever handled. */
  lemma NoNewlineNoLines(s: string)
    requires '\n' !in s
    ensures CompleteLines(s) == []
  {
    assert Find(s, '\n') == -1;
  }

  /** A line that reads as `data: ` and a JSON object, with nothing around
      it to trim, has that object's effect. */
  lemma HandleDataLine(o: Object)
    ensures HandleLine(DataPrefix + Dumps(o)) == LineEffect(TextOf(o), Truthy(Member(o, "done")), Truthy(Member(o, "error")))
  {
    DumpsIsOneLine(o);
    DumpsRoundTrip(o);
    HandleJsonLine(Dumps(o), o);
  }

  /** A data line whose JSON ends in `}` and parses as `o`. */
  lemma HandleJsonLine(j: string, o: Object)
    requires |j| > 0 && j[|j| - 1] == '}' && ParseObject(j) == Some(o)
    ensures HandleLine(DataPrefix + j) == LineEffect(TextOf(o), Truthy(Member(o, "done")), Truthy(Member(o, "error")))
  {
    var line := DataPrefix + j;
    assert JsTrim(line) == line by {
      assert line[0] == 'd';
      assert line[|line| - 1] == '}';
      StripByUnchanged(line, IsJsSpace);
    }
    assert StartsWith(line, DataPrefix) by {
      assert line[..6] == DataPrefix;
    }
    assert line[6..] == j;
  }

  /** The blank line that ends an event does nothing. */
  lemma HandleBlankLine()
    ensures HandleLine("") == NoEffect
  {
    assert JsTrim("") == "";
  }
}
