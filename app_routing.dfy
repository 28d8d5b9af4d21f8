/**
 * The question-answering route of the Streamlit front end, lifted out of
 * the widget code as a decision over the search hits, the generated answer,
 * the web-search switch and the web searcher; and the scoring of a quiz.
 *
 * The two-decimal and percentage renderings of the best distance are not
 * modelled: the degraded message receives the rendered percentage as text.
 */
module App {
  import opened Common
  import opened Text
  import opened VectorDb
  import opened QuizParser
  import opened WebSearch

  // ---------------------------------------------------------------- routing

  /** A hit counts as a good document match below this distance. */
  const Threshold: real := 0.8

  const NotFoundMessage := "Üzgünüm, bu soruyla ilgili bilgi bulamadım."
  const WebNotFoundMessage := "Üzgünüm, web'de de bu konuyla ilgili bilgi bulamadım."

  /** The answer shown when documents matched but no answer could be made
      and the web is not available; `percent` renders the best distance. */
  function DegradedMessage(percent: string): string {
    "Dokümanlardan benzerlik buldum (" + percent + ") ama cevap oluşturamadım. Web araması devre dışı."
  }

  /** Where the shown answer came from. */
  datatype Source = FromDocuments | WebFallback | Failed | FromWeb | NotFound

  function SourceLabel(s: Source): string {
    match s
    case FromDocuments => "📄 Dokümanlardan"
    case WebFallback => "🌐 Web'den (fallback)"
    case Failed => "❌ Hata"
    case FromWeb => "🌐 Web'den"
    case NotFound => "❌ Bulunamadı"
  }

  datatype Routed = Routed(answer: Option<string>, source: Source)

  /** The distance of the best hit, 1.0 without hits. */
  function BestDistance(hits: seq<Hit>): real {
    if hits == [] then 1.0 else hits[0].distance
  }

  /** The search found a good document match. */
  predicate Confident(hits: seq<Hit>) {
    hits != [] && BestDistance(hits) < Threshold
  }

  /** Python's truthiness of an optional string. */
  predicate Truthy(a: Option<string>) {
    a.Some? && a.value != []
  }

  /** A generated answer that cannot be shown: missing, empty, or admitting
      ignorance ("bilmiyorum") in any letter case. */
  predicate Unusable(a: Option<string>) {
    !Truthy(a) || Contains(Lower(a.value), "bilmiyorum")
  }

  /** The routing block. `answer` is what the RAG system generated for the
      question and `webAnswer` what the web searcher would answer. */
  function Route(hits: seq<Hit>, answer: Option<string>, webEnabled: bool, hasSearcher: bool,
                 webAnswer: Option<string>, percent: string): Routed
  {
    if Confident(hits) then
      if Unusable(answer) then
        if webEnabled && hasSearcher then Routed(webAnswer, WebFallback)
        else Routed(Some(DegradedMessage(percent)), Failed)
      else Routed(answer, FromDocuments)
    else if webEnabled && hasSearcher then
      if Truthy(webAnswer) then Routed(webAnswer, FromWeb)
      else Routed(Some(WebNotFoundMessage), NotFound)
    else Routed(Some(NotFoundMessage), NotFound)
  }

  /** What is displayed: the routed answer, or the not-found message when it is falsy. */
  function Displayed(r: Routed): (s: string)
    ensures s != []
    ensures Truthy(r.answer) ==> s == r.answer.value
  {
    if Truthy(r.answer) then r.answer.value else NotFoundMessage
  }

  /** The document answer is used, unchanged, exactly when the match is good
      and the answer is usable. */
  lemma DocumentAnswerExactly(hits: seq<Hit>, answer: Option<string>, webEnabled: bool, hasSearcher: bool,
                              webAnswer: Option<string>, percent: string)
    ensures var r := Route(hits, answer, webEnabled, hasSearcher, webAnswer, percent);
      (r.source == FromDocuments <==> Confident(hits) && !Unusable(answer))
      && (r.source == FromDocuments ==> r.answer == answer)
  {
  }

  /** The web answer is used exactly when web search is on, a searcher
      exists, the documents gave no good match or no usable answer, and
      either the match was good or the web answer is truthy. */
  lemma WebUsedExactly(hits: seq<Hit>, answer: Option<string>, webEnabled: bool, hasSearcher: bool,
                       webAnswer: Option<string>, percent: string)
    ensures var r := Route(hits, answer, webEnabled, hasSearcher, webAnswer, percent);
      (r.source in {WebFallback, FromWeb} <==>
        webEnabled && hasSearcher && (!Confident(hits) || Unusable(answer)) && (Confident(hits) || Truthy(webAnswer)))
      && (r.source in {WebFallback, FromWeb} ==> r.answer == webAnswer)
  {
  }

  /** A good match with an unusable answer and no web degrades to the error message. */
  lemma DegradedWithoutWeb(hits: seq<Hit>, answer: Option<string>, hasSearcher: bool,
                           webAnswer: Option<string>, percent: string)
    requires Confident(hits) && Unusable(answer)
    ensures Route(hits, answer, false, hasSearcher, webAnswer, percent) == Routed(Some(DegradedMessage(percent)), Failed)
  {
  }

  /** Without hits the best distance stays 1.0 and the match is not good. */
  lemma NoHitsNotConfident()
    ensures BestDistance([]) == 1.0 && !Confident([])
  {
  }

  /** With web search off and no good match, the answer is the not-found message. */
  lemma NotFoundWithoutWeb(hits: seq<Hit>, answer: Option<string>, hasSearcher: bool,
                           webAnswer: Option<string>, percent: string)
    requires !Confident(hits)
    ensures Route(hits, answer, false, hasSearcher, webAnswer, percent) == Routed(Some(NotFoundMessage), NotFound)
  {
  }

  /** With the modelled searcher, whose answer is never empty, the
      "not found on the web either" branch cannot be taken. */
  lemma SearcherAnswerAlwaysUsed(hits: seq<Hit>, answer: Option<string>, results: seq<WebResult>, percent: string)
    requires !Confident(hits)
    ensures Route(hits, answer, true, true, Some(AnswerText(results)), percent) == Routed(Some(AnswerText(results)), FromWeb)
  {
    AnswerNonEmpty(results);
  }

  // ---------------------------------------------------------------- scoring

  /** Question `idx` (counting from 1) was answered with its key. */
  predicate AnsweredRight(questions: seq<Question>, selected: map<int, char>, idx: int)
    requires 1 <= idx <= |questions|
  {
    idx in selected && selected[idx] == questions[idx - 1].answer
  }

  /** The questions before `i` answered with their key. */
  function RightBefore(questions: seq<Question>, selected: map<int, char>, i: int): set<int> {
    set idx | 1 <= idx < i && idx <= |questions| && AnsweredRight(questions, selected, idx)
  }

  /** The number of right answers is the size of the set of questions answered right. */
  method CountCorrect(questions: seq<Question>, selected: map<int, char>) returns (correct: nat)
    ensures correct == |RightBefore(questions, selected, |questions| + 1)|
  {
    correct := 0;
    var idx := 1;
    while idx <= |questions|
      invariant 1 <= idx <= |questions| + 1
      invariant correct == |RightBefore(questions, selected, idx)|
    {
      RightBeforeStep(questions, selected, idx);
      if idx in selected && selected[idx] == questions[idx - 1].answer {
        correct := correct + 1;
      }
      idx := idx + 1;
    }
  }

  lemma RightBeforeStep(questions: seq<Question>, selected: map<int, char>, i: int)
    requires 1 <= i <= |questions|
    ensures AnsweredRight(questions, selected, i) ==>
      RightBefore(questions, selected, i + 1) == RightBefore(questions, selected, i) + {i}
      && i !in RightBefore(questions, selected, i)
    ensures !AnsweredRight(questions, selected, i) ==>
      RightBefore(questions, selected, i + 1) == RightBefore(questions, selected, i)
  {
  }

  /** At most one right answer per question. */
  lemma {:induction false} RightBounded(questions: seq<Question>, selected: map<int, char>, i: int)
    requires 1 <= i <= |questions| + 1
    ensures |RightBefore(questions, selected, i)| <= i - 1
    decreases i
  {
    if i > 1 {
      RightBounded(questions, selected, i - 1);
      RightBeforeStep(questions, selected, i - 1);
    } else {
      assert RightBefore(questions, selected, i) == {};
    }
  }

  /** Unanswered questions count as wrong. */
  lemma UnansweredIsWrong(questions: seq<Question>, selected: map<int, char>, idx: int)
    requires 1 <= idx <= |questions| && idx !in selected
    ensures idx !in RightBefore(questions, selected, |questions| + 1)
  {
  }

  /** The feedback band of a score. */
  datatype Band = Excellent | Good | Weak

  /** `score >= 80` and `score >= 60` on `correct / n * 100`, compared as
      exact fractions rather than as floating-point numbers. */
  function BandOf(correct: nat, n: nat): (b: Band)
    requires 0 < n
    ensures b == Excellent <==> 100 * correct >= 80 * n
    ensures b == Good <==> 60 * n <= 100 * correct < 80 * n
    ensures b == Weak <==> 100 * correct < 60 * n
  {
    if 100 * correct >= 80 * n then Excellent
    else if 100 * correct >= 60 * n then Good
    else Weak
  }

  function Feedback(b: Band): string {
    match b
    case Excellent => "🎉 Harika! Çok başarılısın!"
    case Good => "👍 İyi gidiş! Biraz daha çalışabilirsin."
    case Weak => "⚠️ Dokümanı daha dikkatli oku ve tekrar dene."
  }

  /** A higher count never gets a lower band. */
  lemma BandMonotone(c1: nat, c2: nat, n: nat)
    requires 0 < n && c1 <= c2
    ensures BandOf(c1, n) == Excellent ==> BandOf(c2, n) == Excellent
    ensures BandOf(c2, n) == Weak ==> BandOf(c1, n) == Weak
  {
  }

  /** On five questions: four or five right is excellent, three is good. */
  lemma FiveQuestionBands()
    ensures BandOf(5, 5) == Excellent && BandOf(4, 5) == Excellent
    ensures BandOf(3, 5) == Good && BandOf(2, 5) == Weak
  {
  }
}
