/**
 * `OllamaClient` of the C# server: the request body it posts, the fallback
 * strings of the non-streaming call, and the line loop of the streaming call,
 * which reads a server-sent event stream restricted to `data: ` lines with
 * the `[DONE]` end marker.
 *
 * The HTTP exchange and JSON parsing are oracles: the non-streaming call
 * receives the outcome of the post, the streaming call receives the lines of
 * the response body and a function that reads the `choices[0].delta`
 * of one payload.
 */
module OllamaClient {
  import opened Common
  import opened Text

  const ModelName := "llama-3.1-8b-instant"

  /** The request body: model, system and user messages, and the stream flag.
      The temperature is always 0.7. */
  datatype ChatBody = ChatBody(model: string, system: string, user: string, stream: bool)

  // ----------------------------------------------------- ProcessRequestAsync

  /** What posting the request gave: the parsed `message.content` (`None`
      for JSON null), an `HttpRequestException`, or another exception. */
  datatype Posted = Completed(content: Option<string>) | HttpFailed(message: string) | OtherFailed(message: string)

  const EmptyAnswer := "Hata: Cevap boş."

  /** The string `ProcessRequestAsync` returns; it never throws. */
  function ProcessResult(posted: Posted): (r: string)
    ensures posted.Completed? && posted.content.Some? ==> r == posted.content.value
    ensures posted.Completed? && posted.content.None? ==> r == EmptyAnswer
    ensures posted.HttpFailed? ==> r == "Hata: " + posted.message
    ensures posted.OtherFailed? ==> r == "Beklenmeyen hata: " + posted.message
  {
    match posted
    case Completed(content) => content.GetOr(EmptyAnswer)
    case HttpFailed(message) => "Hata: " + message
    case OtherFailed(message) => "Beklenmeyen hata: " + message
  }

  /** The string of a failed call starts with one of the two error prefixes.
      A reply is returned as it came, so it may carry one of them too. */
  lemma FailuresArePrefixed(posted: Posted)
    requires !posted.Completed?
    ensures StartsWith(ProcessResult(posted), "Hata: ") || StartsWith(ProcessResult(posted), "Beklenmeyen hata: ")
  {
    var r := ProcessResult(posted);
    if posted.HttpFailed? {
      assert r[..6] == "Hata: ";
    } else {
      assert r[..18] == "Beklenmeyen hata: ";
    }
  }

  // ------------------------------------------------------ StreamRequestAsync

  /** What reading `choices[0].delta` of one payload gives: no `content`
      property, its value (`None` for JSON null), or a parse or lookup
      exception. */
  datatype Delta = NoContent | Content(text: Option<string>) | Malformed

  const DataPrefix := "data: "
  const DoneMarker := "[DONE]"

  /** `string.IsNullOrWhiteSpace` of a line that was read. */
  predicate Blank(line: string) {
    forall i :: 0 <= i < |line| ==> IsSpace(Net, line[i])
  }

  /** What the loop does with one line. */
  datatype Step = Skip | Finish | Token(text: string) | Throw

  /** A `data: ` line is never blank, so the blank test only ever skips
      lines the prefix test would skip too. */
  lemma DataLineNotBlank(line: string)
    requires StartsWith(line, DataPrefix)
    ensures !Blank(line)
  {
    assert line[0] == line[..6][0] == 'd';
  }

  function StepOf(line: string, delta: string -> Delta): (s: Step)
    ensures Blank(line) || !StartsWith(line, DataPrefix) ==> s == Skip
    ensures s == Finish <==> StartsWith(line, DataPrefix) && line[6..] == DoneMarker
    ensures s.Token? <==> StartsWith(line, DataPrefix) && line[6..] != DoneMarker && delta(line[6..]).Content?
    ensures s.Token? ==> s.text == delta(line[6..]).text.GetOr("")
    ensures s == Throw <==> StartsWith(line, DataPrefix) && line[6..] != DoneMarker && delta(line[6..]) == Malformed
  {
    if !StartsWith(line, DataPrefix) then Skip
    else
      DataLineNotBlank(line);
      var data := line[6..];
      if data == DoneMarker then Finish
      else match delta(data)
        case NoContent => Skip
        case Content(text) => Token(text.GetOr(""))
        case Malformed => Throw
  }

  /** How the stream ended: the body ran out, `[DONE]` was read, or an
      exception ended the enumeration. */
  datatype End = Exhausted | Done | Failed

  /** The tokens yielded, in order, and how the stream ended. */
  datatype Streamed = Streamed(tokens: seq<string>, end: End)

  /** The reference reading of a body, one line at a time. */
  function Stream(lines: seq<string>, delta: string -> Delta): Streamed
    decreases |lines|
  {
    if lines == [] then Streamed([], Exhausted)
    else
      match StepOf(lines[0], delta)
      case Skip => Stream(lines[1..], delta)
      case Finish => Streamed([], Done)
      case Throw => Streamed([], Failed)
      case Token(t) =>
        var rest := Stream(lines[1..], delta);
        Streamed([t] + rest.tokens, rest.end)
  }

  /** `s` with `tokens` yielded before it. */
  function After(tokens: seq<string>, s: Streamed): Streamed {
    Streamed(tokens + s.tokens, s.end)
  }

  /** The line loop of `StreamRequestAsync`, yielding into `tokens`. */
  method StreamTokens(lines: seq<string>, delta: string -> Delta) returns (tokens: seq<string>, end: End)
    ensures Streamed(tokens, end) == Stream(lines, delta)
  {
    tokens := [];
    var i := 0;
    while i < |lines|
      invariant 0 <= i <= |lines|
      invariant Stream(lines, delta) == After(tokens, Stream(lines[i..], delta))
    {
      var line := lines[i];
      assert lines[i..][1..] == lines[i + 1..];
      if Blank(line) {
        i := i + 1;
        continue;
      }
      if StartsWith(line, DataPrefix) {
        var data := line[6..];
        if data == DoneMarker {
          return tokens, Done;
        }
        match delta(data)
        case Malformed =>
          return tokens, Failed;
        case Content(text) =>
          tokens := tokens + [text.GetOr("")];
        case NoContent =>
      }
      i := i + 1;
    }
    end := Exhausted;
  }

  /** Reading `a + b` is reading `a`, then, if `a` ran out, reading `b`. */
  lemma {:induction false} StreamConcat(a: seq<string>, b: seq<string>, delta: string -> Delta)
    ensures Stream(a + b, delta) ==
      if Stream(a, delta).end == Exhausted then After(Stream(a, delta).tokens, Stream(b, delta))
      else Stream(a, delta)
    decreases |a|
  {
    if a == [] {
      assert a + b == b;
    } else {
      ConcatTail(a, b);
      StreamConcat(a[1..], b, delta);
    }
  }

  /** A line the loop skips (blank, without the `data: ` prefix, or a delta
      without content) can be removed anywhere without changing the stream. */
  lemma SkippedLineIgnored(a: seq<string>, line: string, b: seq<string>, delta: string -> Delta)
    requires StepOf(line, delta) == Skip
    ensures Stream(a + [line] + b, delta) == Stream(a + b, delta)
  {
    StreamConcat(a, [line] + b, delta);
    StreamConcat(a, b, delta);
    assert a + [line] + b == a + ([line] + b);
    assert ([line] + b)[1..] == b;
  }

  /** Blank lines produce nothing and do not stop the stream. */
  lemma BlankLineIgnored(a: seq<string>, line: string, b: seq<string>, delta: string -> Delta)
    requires Blank(line)
    ensures Stream(a + [line] + b, delta) == Stream(a + b, delta)
  {
    SkippedLineIgnored(a, line, b, delta);
  }

  /** Lines without the exact `data: ` prefix are ignored. */
  lemma NonDataLineIgnored(a: seq<string>, line: string, b: seq<string>, delta: string -> Delta)
    requires !StartsWith(line, DataPrefix)
    ensures Stream(a + [line] + b, delta) == Stream(a + b, delta)
  {
    SkippedLineIgnored(a, line, b, delta);
  }

  /** A payload whose delta has no `content` yields nothing. */
  lemma NoContentIgnored(a: seq<string>, payload: string, b: seq<string>, delta: string -> Delta)
    requires payload != DoneMarker && delta(payload) == NoContent
    ensures Stream(a + [DataPrefix + payload] + b, delta) == Stream(a + b, delta)
  {
    var line := DataPrefix + payload;
    assert line[..6] == DataPrefix && line[6..] == payload;
    SkippedLineIgnored(a, line, b, delta);
  }

  /** `data: [DONE]` ends the stream: no later line is read. */
  lemma DoneEndsStream(a: seq<string>, b: seq<string>, delta: string -> Delta)
    ensures Stream(a + [DataPrefix + DoneMarker] + b, delta) == Stream(a + [DataPrefix + DoneMarker], delta)
    ensures Stream(a, delta).end == Exhausted ==>
      Stream(a + [DataPrefix + DoneMarker], delta) == Streamed(Stream(a, delta).tokens, Done)
  {
    var done := DataPrefix + DoneMarker;
    assert StepOf(done, delta) == Finish by {
      assert done[..6] == DataPrefix && done[6..] == DoneMarker;
    }
    assert a + [done] + b == a + ([done] + b);
    StreamConcat(a, [done] + b, delta);
    StreamConcat(a, [done], delta);
    assert Stream(a, delta).tokens + [] == Stream(a, delta).tokens;
  }

  /** A payload with `delta.content` yields exactly one token after the
      tokens before it; JSON null yields `""`. */
  lemma ContentYieldsOneToken(a: seq<string>, payload: string, b: seq<string>, delta: string -> Delta)
    requires payload != DoneMarker && delta(payload).Content?
    requires Stream(a, delta).end == Exhausted
    ensures Stream(a + [DataPrefix + payload] + b, delta) ==
      After(Stream(a, delta).tokens + [delta(payload).text.GetOr("")], Stream(b, delta))
  {
    var line := DataPrefix + payload;
    assert line[..6] == DataPrefix && line[6..] == payload;
    assert a + [line] + b == a + ([line] + b);
    assert ([line] + b)[1..] == b;
    StreamConcat(a, [line] + b, delta);
  }

  /** A yielded token is never taken back: the tokens of a prefix of the
      body are a prefix of the tokens of the whole body. */
  lemma TokensGrow(a: seq<string>, b: seq<string>, delta: string -> Delta)
    ensures |Stream(a, delta).tokens| <= |Stream(a + b, delta).tokens|
    ensures Stream(a + b, delta).tokens[..|Stream(a, delta).tokens|] == Stream(a, delta).tokens
  {
    StreamConcat(a, b, delta);
  }

  /** Every token comes from one line: there are never more tokens than lines. */
  lemma {:induction false} TokensBounded(lines: seq<string>, delta: string -> Delta)
    ensures |Stream(lines, delta).tokens| <= |lines|
    decreases |lines|
  {
    if lines != [] {
      TokensBounded(lines[1..], delta);
    }
  }

  // --------------------------------------------------------------- the client

  class Client {
    /** The system prompt of the last request. */
    var systemPrompt: Option<string>

    constructor()
      ensures systemPrompt == None
    {
      systemPrompt := None;
    }

    /** `ProcessRequestAsync`: the body it posts and the string it returns.
        `prompt` is the agent's system prompt. */
    method ProcessRequest(userMessage: string, prompt: string, posted: Posted) returns (body: ChatBody, answer: string)
      modifies this
      ensures systemPrompt == Some(prompt)
      ensures body == ChatBody(ModelName, prompt, userMessage, false)
      ensures answer == ProcessResult(posted)
    {
      systemPrompt := Some(prompt);
      body := ChatBody(ModelName, prompt, userMessage, false);
      answer := ProcessResult(posted);
    }

    /** `StreamRequestAsync` after a successful status: the body it posts,
        the tokens it yields and how the enumeration ends. */
    method StreamRequest(userMessage: string, prompt: string, lines: seq<string>, delta: string -> Delta)
      returns (body: ChatBody, tokens: seq<string>, end: End)
      modifies this
      ensures systemPrompt == Some(prompt)
      ensures body == ChatBody(ModelName, prompt, userMessage, true)
      ensures Streamed(tokens, end) == Stream(lines, delta)
    {
      systemPrompt := Some(prompt);
      body := ChatBody(ModelName, prompt, userMessage, true);
      tokens, end := StreamTokens(lines, delta);
    }
  }
}
