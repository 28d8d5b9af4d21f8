/**
 * The quiz endpoint of the C# server: the user prompt it sends, the
 * cleaning of the model's reply (code fences removed, trimmed) and the
 * slice from the first `[` to the last `]` handed to the JSON deserialiser.
 *
 * The deserialiser is a parameter: it maps the sliced text to the parsed
 * list, or to `None` where it throws `JsonException`.
 */
module QuizEndpoint {
  import opened Common
  import opened Text

  /** `s` with every non-overlapping occurrence of `pat` removed, scanning
      left to right: .NET's `s.Replace(pat, "")`. */
  function RemoveAll(s: string, pat: string): (r: string)
    requires pat != []
    ensures |r| <= |s|
    decreases |s|
  {
    if s == [] then []
    else if StartsWith(s, pat) then RemoveAll(s[|pat|..], pat)
    else [s[0]] + RemoveAll(s[1..], pat)
  }

  /** A string shorter than the pattern is left alone. */
  lemma {:induction false} RemoveAllShort(s: string, pat: string)
    requires pat != [] && |s| < |pat|
    ensures RemoveAll(s, pat) == s
    decreases |s|
  {
    if s != [] {
      RemoveAllShort(s[1..], pat);
    }
  }

  /** A prefix without the pattern's first character is kept as it is. */
  lemma {:induction false} RemoveAllKeepsFreePrefix(a: string, b: string, pat: string)
    requires pat != [] && pat[0] !in a
    ensures RemoveAll(a + b, pat) == a + RemoveAll(b, pat)
    decreases |a|
  {
    if a != [] {
      var s := a + b;
      assert s[0] == a[0];
      assert !StartsWith(s, pat);
      assert s[1..] == a[1..] + b;
      assert RemoveAll(s, pat) == [a[0]] + RemoveAll(a[1..] + b, pat);
      RemoveAllKeepsFreePrefix(a[1..], b, pat);
      assert a == [a[0]] + a[1..];
    } else {
      assert a + b == b;
    }
  }

  /** A leading occurrence of the pattern is removed. */
  lemma RemoveAllLeading(pat: string, b: string)
    requires pat != []
    ensures RemoveAll(pat + b, pat) == RemoveAll(b, pat)
  {
    assert (pat + b)[..|pat|] == pat;
    assert (pat + b)[|pat|..] == b;
  }

  const JsonFence := "```json"
  const Fence := "```"

  /** The reply with every "```json", then every "```", removed, then trimmed. */
  function Clean(response: string): string {
    Trim(RemoveAll(RemoveAll(response, JsonFence), Fence), Net)
  }

  /** A reply fenced as a JSON code block, with no backtick inside, cleans to
      its trimmed body. */
  lemma FencedReplyCleansToBody(body: string)
    requires '`' !in body
    ensures Clean(JsonFence + body + Fence) == Trim(body, Net)
  {
    assert JsonFence[0] == '`' && Fence[0] == '`';
    assert JsonFence + body + Fence == JsonFence + (body + Fence);
    RemoveAllLeading(JsonFence, body + Fence);
    RemoveAllKeepsFreePrefix(body, Fence, JsonFence);
    RemoveAllShort(Fence, JsonFence);
    assert RemoveAll(JsonFence + body + Fence, JsonFence) == body + Fence;
    RemoveAllKeepsFreePrefix(body, Fence, Fence);
    assert Fence + [] == Fence;
    RemoveAllLeading(Fence, []);
    assert RemoveAll(body + Fence, Fence) == body + RemoveAll([], Fence);
    assert body + [] == body;
  }

  /** A reply without backticks loses only its surrounding whitespace. */
  lemma UnfencedReplyOnlyTrimmed(response: string)
    requires '`' !in response
    ensures Clean(response) == Trim(response, Net)
  {
    RemoveAllKeepsFreePrefix(response, [], JsonFence);
    RemoveAllKeepsFreePrefix(response, [], Fence);
    assert response + [] == response;
  }

  // ------------------------------------------------------------- the slice

  /** Where the slice leads: no bracket, a negative `Substring` length, or the slice. */
  datatype Sliced = NoArray | NegativeLength | Slice(text: string)

  function ArraySlice(clean: string): (r: Sliced)
    ensures r == NoArray <==> '[' !in clean || ']' !in clean
    ensures r == NegativeLength <==> '[' in clean && ']' in clean && LastIndexOf(clean, ']') < IndexOf(clean, '[') - 1
    ensures r.Slice? ==> var i := IndexOf(clean, '['); var j := LastIndexOf(clean, ']');
      r.text == clean[i..j + 1] && '[' !in clean[..i] && ']' !in clean[j + 1..]
    ensures r.Slice? ==> (r.text == [] <==> LastIndexOf(clean, ']') == IndexOf(clean, '[') - 1)
    ensures r.Slice? && r.text != [] ==> r.text[0] == '[' && r.text[|r.text| - 1] == ']'
  {
    var i := IndexOf(clean, '[');
    var j := LastIndexOf(clean, ']');
    if i == -1 || j == -1 then NoArray
    else if j - i + 1 < 0 then NegativeLength
    else Slice(clean[i..j + 1])
  }

  /** An array already in place is sliced as it is. */
  lemma BracketedSlicesToItself(inner: string)
    requires '[' !in inner && ']' !in inner
    ensures ArraySlice("[" + inner + "]") == Slice("[" + inner + "]")
  {
    var s := "[" + inner + "]";
    assert s[1..|s| - 1] == inner;
    assert s[..0] == [];
    assert IndexOf(s, '[') == 0;
    assert LastIndexOf(s, ']') == |s| - 1;
  }

  // ------------------------------------------------------------ the handler

  /** `HandleAsync`'s result: `Ok` with the list, a problem with its detail,
      or the `ArgumentOutOfRangeException` that escapes the handler. */
  datatype Outcome<T> = Ok(value: T) | Problem(detail: string) | Unhandled

  const NoArrayProblem := "The AI response does not contain a valid JSON array."
  const ParseProblem := "Failed to parse the AI response into quiz questions."

  /** The request's prompt, with the source text, count and difficulty in place. */
  function UserPrompt(sourceText: string, count: int, difficulty: string): (p: string)
    ensures StartsWith(p, "Text: " + sourceText)
    ensures EndsWith(p, "Difficulty: " + difficulty + ".")
  {
    var head := "Text: " + sourceText;
    var middle := "\n\nRequirement: Create " + IntToString(count) + " questions. ";
    var tail := "Difficulty: " + difficulty + ".";
    Parts(head, middle, tail);
    head + middle + tail
  }

  predicate EndsWith(s: string, suffix: string) {
    |suffix| <= |s| && s[|s| - |suffix|..] == suffix
  }

  lemma Parts(a: string, b: string, c: string)
    ensures StartsWith(a + b + c, a) && EndsWith(a + b + c, c)
  {
    var s := a + b + c;
    assert s[..|a|] == a;
    assert s[|s| - |c|..] == c;
  }

  /** What the handler answers for the model's reply `response`. */
  function Handle<T>(response: string, deserialize: string -> Option<T>): (r: Outcome<T>)
    ensures ArraySlice(Clean(response)) == NoArray ==> r == Problem(NoArrayProblem)
    ensures ArraySlice(Clean(response)) == NegativeLength ==> r == Unhandled
    ensures ArraySlice(Clean(response)).Slice? ==>
      var parsed := deserialize(ArraySlice(Clean(response)).text);
      r == if parsed.Some? then Ok(parsed.value) else Problem(ParseProblem)
  {
    match ArraySlice(Clean(response))
    case NoArray => Problem(NoArrayProblem)
    case NegativeLength => Unhandled
    case Slice(text) =>
      match deserialize(text)
      case Some(v) => Ok(v)
      case None => Problem(ParseProblem)
  }

  /** A fenced array reply reaches the deserialiser as exactly the array. */
  lemma FencedArrayDeserialised<T>(inner: string, deserialize: string -> Option<T>)
    requires '`' !in inner && '[' !in inner && ']' !in inner
    ensures Handle(JsonFence + "[" + inner + "]" + Fence, deserialize) ==
      match deserialize("[" + inner + "]") case Some(v) => Ok(v) case None => Problem(ParseProblem)
  {
    var body := "[" + inner + "]";
    assert JsonFence + "[" + inner + "]" + Fence == JsonFence + body + Fence;
    FencedReplyCleansToBody(body);
    assert IsTrimmed(body, Net);
    TrimOfTrimmed(body, Net);
    BracketedSlicesToItself(inner);
  }

  /** `"]["` slices to nothing, which the deserialiser rejects; `"] ["` is
      a negative length. */
  lemma ReversedBrackets()
    ensures ArraySlice("][") == Slice([])
    ensures ArraySlice("] [") == NegativeLength
  {
    assert IndexOf("][", '[') == 1;
    assert LastIndexOf("][", ']') == 0;
    assert IndexOf("] [", '[') == 2;
    assert LastIndexOf("] [", ']') == 0;
  }

  /** As written, a reply whose last `]` comes before its first `[` with a
      character between them escapes the handler. */
  lemma ReversedBracketsEscape<T>(deserialize: string -> Option<T>)
    ensures Handle("] [", deserialize) == Unhandled
  {
    UnfencedReplyOnlyTrimmed("] [");
    assert IsTrimmed("] [", Net);
    TrimOfTrimmed("] [", Net);
    ReversedBrackets();
  }

  /** The handler with reversed brackets answered like missing ones: the
      outcome is never an escaping exception, and it agrees with `Handle`
      wherever there is a slice to deserialise. */
  function HandleGuarded<T>(response: string, deserialize: string -> Option<T>): (r: Outcome<T>)
    ensures r != Unhandled
    ensures ArraySlice(Clean(response)).Slice? ==> r == Handle(response, deserialize)
    ensures !ArraySlice(Clean(response)).Slice? ==> r == Problem(NoArrayProblem)
  {
    match ArraySlice(Clean(response))
    case NoArray => Problem(NoArrayProblem)
    case NegativeLength => Problem(NoArrayProblem)
    case Slice(text) =>
      match deserialize(text)
      case Some(v) => Ok(v)
      case None => Problem(ParseProblem)
  }
}
