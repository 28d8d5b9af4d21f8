/**
 * `RAGSystem`: prompt assembly and the retry loop of `generate_answer`, and
 * the search-then-answer flow of `process_question`.
 *
 * The chat-completion service is an oracle: `replies[i]` is the outcome of
 * the `i`-th call (counting from 0), and a call past the end of the list
 * fails. Sleeping is recorded as the list of requested delays in seconds.
 */
module RagSystem {
  import opened Common
  import opened Text
  import opened VectorDb

  /** The outcome of one completion call: an exception with its message, or a
      reply whose content may be `None`. */
  datatype Reply = Failure(error: string) | Success(content: Option<string>)

  function ReplyAt(replies: seq<Reply>, i: nat): Reply {
    if i < |replies| then replies[i] else Failure("")
  }

  const Retries: nat := 3
  const Backoff: nat := 2

  /** Whether an error message reads as a rate limit. */
  predicate IsRateLimit(error: string) {
    Contains(error, "429") || Contains(error, "Rate limit")
  }

  // ---------------------------------------------------------------- prompts

  /** The chat request: model name, system message and user message. */
  datatype Request = Request(model: string, system: string, user: string)

  const WebSystemPrompt := "Sen bir yardımcı asistansın. Verilen web araması sonuçlarına dayanarak soruyu cevapla.\nKısa ve öz cevap ver. Bilgi varsa paylaş, yoksa \"Bilgiye ulaşamadım\" de."

  const DocumentSystemPrompt := "Sen bir yardımcı asistansın. Verilen doküman parçalarına dayanarak soruyu cevapla.\nMümkün olduğunca dokümanın içeriğini kullan. Kısa ve öz cevap ver."

  const ContextSeparator := "\n\n"

  const UserHead := "Bağlam:\n"

  const QuestionHead := "\n\nSoru: "

  const UserTail := "\n\nVerilen bağlama göre kısa ve özlü cevap ver."

  /** The context chunks joined by blank lines, in the given order. */
  function ContextText(context: seq<string>): string {
    JoinWith(context, ContextSeparator)
  }

  /** The user message: the context block, then the question. */
  function UserMessage(query: string, context: seq<string>): (m: string)
    ensures |m| == |UserHead| + |ContextText(context)| + |QuestionHead| + |query| + |UserTail|
    ensures m[..|UserHead|] == UserHead
    ensures m[|UserHead|..|UserHead| + |ContextText(context)|] == ContextText(context)
    ensures m[|m| - |UserTail| - |query|..|m| - |UserTail|] == query
  {
    Pieces(UserHead, ContextText(context), QuestionHead, query, UserTail);
    UserHead + ContextText(context) + QuestionHead + query + UserTail
  }

  /** Where the first, second and fourth of five joined pieces sit. */
  lemma Pieces(a: string, b: string, c: string, d: string, e: string)
    ensures var m := a + b + c + d + e;
      |m| == |a| + |b| + |c| + |d| + |e| && m[..|a|] == a && m[|a|..|a| + |b|] == b
      && m[|m| - |e| - |d|..|m| - |e|] == d
  {
    var m := a + b + c + d + e;
    assert m == a + (b + (c + (d + e)));
    assert m[..|a|] == a;
    assert m[|a|..|a| + |b|] == b;
    assert m[|m| - |e| - |d|..|m| - |e|] == d;
  }

  function RequestFor(query: string, context: seq<string>, model: string, fromWeb: bool): (r: Request)
    ensures r.model == model
    ensures r.system == if fromWeb then WebSystemPrompt else DocumentSystemPrompt
    ensures r.user == UserMessage(query, context)
  {
    Request(model, if fromWeb then WebSystemPrompt else DocumentSystemPrompt, UserMessage(query, context))
  }

  /** Joining keeps the chunks in order: the joined text of `a + b` is that
      of `a`, the separator, then that of `b`. */
  lemma {:induction false} JoinWithConcat(a: seq<string>, b: seq<string>, sep: string)
    requires a != [] && b != []
    ensures JoinWith(a + b, sep) == JoinWith(a, sep) + sep + JoinWith(b, sep)
    decreases |a|
  {
    if |a| == 1 {
      assert (a + b)[1..] == b;
    } else {
      assert (a + b)[1..] == a[1..] + b;
      JoinWithConcat(a[1..], b, sep);
    }
  }

  /** One context chunk is the whole context text. */
  lemma ContextOfOne(chunk: string)
    ensures ContextText([chunk]) == chunk
  {
  }

  // ------------------------------------------------------------ retry loop

  /** The first of the first `n` calls that succeeds. */
  function FirstSuccess(replies: seq<Reply>, n: nat): (r: Option<nat>)
    ensures r.Some? ==> (r.value < n && ReplyAt(replies, r.value).Success?
      && forall j :: 0 <= j < r.value ==> ReplyAt(replies, j).Failure?)
    ensures r.None? ==> forall j :: 0 <= j < n ==> ReplyAt(replies, j).Failure?
  {
    if n == 0 then None
    else
      var r := FirstSuccess(replies, n - 1);
      if r.Some? then r
      else if ReplyAt(replies, n - 1).Success? then Some(n - 1)
      else None
  }

  /** The delays slept after the first `n` failures: 2, 4, 6, ... seconds. */
  function Delays(n: nat): (r: seq<int>)
    ensures |r| == n && forall i :: 0 <= i < n ==> r[i] == Backoff * (i + 1)
  {
    seq(n, i requires 0 <= i < n => Backoff * (i + 1))
  }

  /** The answer: the content of the first successful call among three, and
      `None` without a client or when all three fail. */
  function AnswerOf(hasClient: bool, replies: seq<Reply>): Option<string> {
    if !hasClient then None
    else match FirstSuccess(replies, Retries)
      case Some(i) => ReplyAt(replies, i).content
      case None => None
  }

  /** How many calls are made: none without a client, up to and including
      the first success, and three when all fail. */
  function CallCount(hasClient: bool, replies: seq<Reply>): nat {
    if !hasClient then 0
    else match FirstSuccess(replies, Retries)
      case Some(i) => i + 1
      case None => Retries
  }

  /** How many times it sleeps: after every failed call but the last, and
      after the last one too when it reads as a rate limit. */
  function SleepCount(hasClient: bool, replies: seq<Reply>): nat {
    if !hasClient then 0
    else match FirstSuccess(replies, Retries)
      case Some(i) => i
      case None => if IsRateLimit(ReplyAt(replies, Retries - 1).error) then Retries else Retries - 1
  }

  /** `generate_answer`. Never raises: every failure path gives `None`. */
  method GenerateAnswer(hasClient: bool, query: string, context: seq<string>, model: string, fromWeb: bool,
                        replies: seq<Reply>)
    returns (answer: Option<string>, sent: seq<Request>, slept: seq<int>)
    ensures answer == AnswerOf(hasClient, replies)
    ensures sent == seq(CallCount(hasClient, replies), _ => RequestFor(query, context, model, fromWeb))
    ensures slept == Delays(SleepCount(hasClient, replies))
  {
    sent := [];
    slept := [];
    if !hasClient {
      return None, sent, slept;
    }
    var request := RequestFor(query, context, model, fromWeb);
    var attempt := 1;
    while attempt <= Retries
      invariant 1 <= attempt <= Retries + 1
      invariant FirstSuccess(replies, attempt - 1) == None
      invariant sent == seq(attempt - 1, _ => request)
      invariant slept == Delays(attempt - 1)
      invariant attempt > Retries ==> IsRateLimit(ReplyAt(replies, Retries - 1).error)
    {
      var reply := ReplyAt(replies, attempt - 1);
      RepeatSnoc(request, attempt - 1);
      sent := sent + [request];
      if reply.Success? {
        assert FirstSuccess(replies, attempt) == Some(attempt - 1);
        return reply.content, sent, slept;
      }
      assert FirstSuccess(replies, attempt) == None;
      if IsRateLimit(reply.error) || attempt < Retries {
        DelaysSnoc(attempt - 1);
        slept := slept + [Backoff * attempt];
      } else {
        return None, sent, slept;
      }
      attempt := attempt + 1;
    }
    answer := None;
  }

  /** One more failure adds the next delay. */
  lemma DelaysSnoc(n: nat)
    ensures Delays(n + 1) == Delays(n) + [Backoff * (n + 1)]
  {
    assert Delays(n + 1)[..n] == Delays(n);
  }

  /** One more call adds the same request. */
  lemma RepeatSnoc(request: Request, n: nat)
    ensures seq(n + 1, _ => request) == seq(n, _ => request) + [request]
  {
  }

  /** At most three calls, and the sleeps are 2, 4 and (only after a final
      rate limit) 6 seconds. */
  lemma AtMostThreeCalls(hasClient: bool, replies: seq<Reply>)
    ensures CallCount(hasClient, replies) <= Retries
    ensures SleepCount(hasClient, replies) <= CallCount(hasClient, replies)
  {
  }

  /** A first call that succeeds is the only call, and its content is returned unchanged. */
  lemma FirstReplyReturned(replies: seq<Reply>, content: Option<string>)
    requires ReplyAt(replies, 0) == Success(content)
    ensures AnswerOf(true, replies) == content
    ensures CallCount(true, replies) == 1 && SleepCount(true, replies) == 0
  {
    assert FirstSuccess(replies, 1) == Some(0);
    assert FirstSuccess(replies, 2) == Some(0);
  }

  /** Failures of any kind on the first two calls are retried. */
  lemma FailuresRetried(replies: seq<Reply>, content: Option<string>)
    requires ReplyAt(replies, 0).Failure? && ReplyAt(replies, 1).Failure?
    requires ReplyAt(replies, 2) == Success(content)
    ensures AnswerOf(true, replies) == content
    ensures CallCount(true, replies) == 3
    ensures Delays(SleepCount(true, replies)) == [2, 4]
  {
    assert FirstSuccess(replies, 2) == None;
    assert FirstSuccess(replies, 3) == Some(2);
  }

  /** Three failures give `None`. */
  lemma AllFailuresGiveNone(replies: seq<Reply>)
    requires forall i :: 0 <= i < Retries ==> ReplyAt(replies, i).Failure?
    ensures AnswerOf(true, replies) == None
    ensures CallCount(true, replies) == 3
  {
  }

  /** After three failures it has slept 2 and 4 seconds, and 6 more exactly
      when the last failure reads as a rate limit. */
  lemma LastSleepOnRateLimit(replies: seq<Reply>)
    requires forall i :: 0 <= i < Retries ==> ReplyAt(replies, i).Failure?
    ensures IsRateLimit(ReplyAt(replies, Retries - 1).error) ==> Delays(SleepCount(true, replies)) == [2, 4, 6]
    ensures !IsRateLimit(ReplyAt(replies, Retries - 1).error) ==> Delays(SleepCount(true, replies)) == [2, 4]
  {
  }

  // ------------------------------------------------------- process_question

  const NotFoundMessage := "Üzgünüm, bu soruyla ilgili bilgi bulamadım."

  /** What `process_question` returns: the bare answer, or the dict with
      `answer` and `sources` when `return_sources` is set. */
  datatype Processed = Plain(answer: Option<string>) | WithSources(answer: Option<string>, sources: seq<Hit>)

  /** The texts of the hits, in rank order. */
  function Texts(hits: seq<Hit>): (r: seq<string>)
    ensures |r| == |hits| && forall i :: 0 <= i < |hits| ==> r[i] == hits[i].text
  {
    seq(|hits|, i requires 0 <= i < |hits| => hits[i].text)
  }

  function Wrap(returnSources: bool, answer: Option<string>, hits: seq<Hit>): Processed {
    if returnSources then WithSources(answer, hits) else Plain(answer)
  }

  /** `process_question`: search with `k_results` hits, then answer from the
      hit texts with the document prompt. */
  method ProcessQuestion(db: VectorDatabase, hasClient: bool, query: string, kResults: int, f: Filter,
                         model: string, returnSources: bool, ranked: Option<seq<Hit>>, replies: seq<Reply>)
    returns (r: Processed, sent: seq<Request>, slept: seq<int>)
    ensures var hits := SearchResult(db.ready, ranked, kResults, f, None);
      (hits == [] ==> r == Wrap(returnSources, Some(NotFoundMessage), []) && sent == [] && slept == [])
      && (hits != [] ==>
        r == Wrap(returnSources, AnswerOf(hasClient, replies), hits)
        && sent == seq(CallCount(hasClient, replies), _ => RequestFor(query, Texts(hits), model, false))
        && slept == Delays(SleepCount(hasClient, replies)))
  {
    var hits := db.Search(kResults, f, None, ranked);
    if hits == [] {
      return Wrap(returnSources, Some(NotFoundMessage), []), [], [];
    }
    var context := Texts(hits);
    var answer;
    answer, sent, slept := GenerateAnswer(hasClient, query, context, model, false, replies);
    r := Wrap(returnSources, answer, hits);
  }

  /** With hits, the sources returned are the hit list unchanged, and the
      answer is the one generated from their texts. */
  lemma SourcesAreHits(returnSources: bool, answer: Option<string>, hits: seq<Hit>)
    requires returnSources
    ensures Wrap(returnSources, answer, hits).sources == hits
    ensures Wrap(returnSources, answer, hits).answer == answer
  {
  }
}
