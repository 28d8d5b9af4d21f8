/**
 * `FreeWebSearcher`: the capped and truncated result list of `search` over
 * two optional providers, and the answer text `search_and_answer` joins
 * from it.
 *
 * The providers are oracles. The Wikipedia branch receives the outcome of
 * loading each title the title search returned, in order (`None` when the
 * title search itself raises); the DuckDuckGo branch receives its result
 * records (`None` when the query raises).
 */
module WebSearch {
  import opened Common
  import opened Text

  /** One result: `{'title', 'url', 'content', 'source'}`. */
  datatype WebResult = WebResult(title: string, url: string, content: string, source: string)

  /** Loading one Wikipedia title: a page, or one of the errors the loop skips. */
  datatype PageOutcome = Page(title: string, url: string, summary: string) | PageFailed

  /** One DuckDuckGo record; each key may be missing. */
  datatype DdgRecord = DdgRecord(title: Option<string>, link: Option<string>, body: Option<string>)

  const ContentLimit := 500
  const MinSummary := 50
  const NoTitle := "Başlık yok"
  const NotFoundMessage := "Üzgünüm, web'de bu konuyla ilgili bilgi bulamadım."
  const AnswerSeparator := "\n\n"

  // ------------------------------------------------------------- Wikipedia

  /** A page is kept when its summary is longer than 50 characters. */
  predicate Usable(p: PageOutcome) {
    p.Page? && |p.summary| > MinSummary
  }

  function WikiResult(p: PageOutcome): (r: WebResult)
    requires p.Page?
    ensures r.content == Take(p.summary, ContentLimit) && |r.content| <= ContentLimit
    ensures r.title == p.title && r.source == "Wikipedia"
  {
    WebResult(p.title, p.url, Take(p.summary, ContentLimit), "Wikipedia")
  }

  /** The results of all usable pages, in order. */
  function Kept(pages: seq<PageOutcome>): seq<WebResult>
    decreases |pages|
  {
    if pages == [] then []
    else
      var init := pages[..|pages| - 1];
      var p := pages[|pages| - 1];
      Kept(init) + (if Usable(p) then [WikiResult(p)] else [])
  }

  /** Each kept result comes from a usable page, truncated. */
  lemma {:induction false} KeptFromUsable(pages: seq<PageOutcome>)
    ensures forall r :: r in Kept(pages) ==>
      exists p :: p in pages && Usable(p) && r == WikiResult(p)
    decreases |pages|
  {
    if pages != [] {
      var init := pages[..|pages| - 1];
      var p := pages[|pages| - 1];
      KeptFromUsable(init);
      forall r | r in Kept(pages) ensures exists q :: q in pages && Usable(q) && r == WikiResult(q) {
        if r in Kept(init) {
          var q :| q in init && Usable(q) && r == WikiResult(q);
          assert q in pages;
        } else {
          assert p in pages;
        }
      }
    }
  }

  /** The results of a prefix of the pages are a prefix of all the results. */
  lemma {:induction false} KeptPrefix(pages: seq<PageOutcome>, i: nat)
    requires i <= |pages|
    ensures |Kept(pages[..i])| <= |Kept(pages)|
    ensures Kept(pages)[..|Kept(pages[..i])|] == Kept(pages[..i])
    decreases |pages| - i
  {
    if i < |pages| {
      KeptPrefix(pages, i + 1);
      assert pages[..i + 1][..i] == pages[..i];
    } else {
      assert pages[..i] == pages;
    }
  }

  /** What the Wikipedia branch yields: the first `max_results` kept results. */
  function WikiResults(pages: seq<PageOutcome>, maxResults: int): seq<WebResult> {
    Take(Kept(pages), maxResults)
  }

  // ------------------------------------------------------------ DuckDuckGo

  function DdgResult(d: DdgRecord): (r: WebResult)
    ensures r.title == d.title.GetOr(NoTitle)
    ensures r.content == Take(d.body.GetOr(""), ContentLimit) && |r.content| <= ContentLimit
    ensures r.source == "DuckDuckGo"
  {
    WebResult(d.title.GetOr(NoTitle), d.link.GetOr(""), Take(d.body.GetOr(""), ContentLimit), "DuckDuckGo")
  }

  /** Every DuckDuckGo record becomes one result, in order. */
  function DdgResults(records: seq<DdgRecord>): (r: seq<WebResult>)
    ensures |r| == |records| && forall i :: 0 <= i < |records| ==> r[i] == DdgResult(records[i])
  {
    seq(|records|, i requires 0 <= i < |records| => DdgResult(records[i]))
  }

  /** What `search` returns: the Wikipedia results, or, when there are none,
      the DuckDuckGo results. */
  function SearchResults(hasWikipedia: bool, hasDuckDuckGo: bool, maxResults: int,
                         wiki: Option<seq<PageOutcome>>, ddg: Option<seq<DdgRecord>>): seq<WebResult>
  {
    var fromWiki := if hasWikipedia && wiki.Some? then WikiResults(wiki.value, maxResults) else [];
    if fromWiki == [] && hasDuckDuckGo && ddg.Some? then DdgResults(ddg.value) else fromWiki
  }

  /** The Wikipedia branch yields at most `max_results` results, each from a
      page whose summary is longer than 50 characters, cut to 500. */
  lemma WikiBounded(pages: seq<PageOutcome>, maxResults: int)
    ensures |WikiResults(pages, maxResults)| <= Max(maxResults, 0)
    ensures forall r :: r in WikiResults(pages, maxResults) ==>
      |r.content| <= ContentLimit && exists p :: p in pages && Usable(p) && r == WikiResult(p)
  {
    KeptFromUsable(pages);
    var kept := Kept(pages);
    var w := WikiResults(pages, maxResults);
    forall r | r in w ensures r in kept {
      var i :| 0 <= i < |w| && w[i] == r;
      assert w[i] == kept[i];
    }
  }

  /** DuckDuckGo is consulted only when Wikipedia yields nothing. */
  lemma DdgOnlyAsFallback(hasWikipedia: bool, hasDuckDuckGo: bool, maxResults: int,
                          wiki: Option<seq<PageOutcome>>, ddg: Option<seq<DdgRecord>>)
    requires hasWikipedia && wiki.Some? && WikiResults(wiki.value, maxResults) != []
    ensures SearchResults(hasWikipedia, hasDuckDuckGo, maxResults, wiki, ddg) == WikiResults(wiki.value, maxResults)
  {
  }

  // ------------------------------------------------------ search_and_answer

  /** `**title**: content`. */
  function Formatted(r: WebResult): (s: string)
    ensures |s| == |r.title| + |r.content| + 6
    ensures s[..2] == "**" && s[2..2 + |r.title|] == r.title
    ensures s[|s| - |r.content|..] == r.content
  {
    var s := "**" + r.title + "**: " + r.content;
    assert s == "**" + (r.title + ("**: " + r.content));
    s
  }

  /** The formatted results that have content, in result order. */
  function Answers(results: seq<WebResult>): seq<string>
    decreases |results|
  {
    if results == [] then []
    else
      var r := results[|results| - 1];
      Answers(results[..|results| - 1]) + (if r.content != [] then [Formatted(r)] else [])
  }

  /** The answers of the first `i + 1` results: those of the first `i`, then
      the `i`-th one's when it has content. */
  lemma AnswersSnoc(results: seq<WebResult>, i: int)
    requires 0 <= i < |results|
    ensures Answers(results[..i + 1]) ==
      Answers(results[..i]) + (if results[i].content != [] then [Formatted(results[i])] else [])
  {
    assert results[..i + 1][..i] == results[..i];
  }

  /** The answer of `search_and_answer` for given results. */
  function AnswerText(results: seq<WebResult>): string {
    var answers := Answers(results);
    if answers == [] then NotFoundMessage else JoinWith(answers, AnswerSeparator)
  }

  /** An answer exists exactly when some result has content. */
  lemma {:induction false} AnswersEmpty(results: seq<WebResult>)
    ensures Answers(results) == [] <==> forall i :: 0 <= i < |results| ==> results[i].content == []
    decreases |results|
  {
    if results != [] {
      var init := results[..|results| - 1];
      AnswersEmpty(init);
      assert forall i :: 0 <= i < |init| ==> init[i] == results[i];
    }
  }

  lemma {:induction false} JoinNonEmpty(parts: seq<string>, sep: string)
    requires parts != [] && parts[0] != []
    ensures JoinWith(parts, sep) != []
  {
    if |parts| > 1 {
      assert JoinWith(parts, sep)[0] == parts[0][0];
    }
  }

  /** Every formatted answer starts with `**`. */
  lemma {:induction false} AnswersStartWithStars(results: seq<WebResult>)
    ensures forall i :: 0 <= i < |Answers(results)| ==> |Answers(results)[i]| >= 2 && Answers(results)[i][..2] == "**"
    decreases |results|
  {
    if results != [] {
      AnswersStartWithStars(results[..|results| - 1]);
    }
  }

  /** The answer is never empty. */
  lemma AnswerNonEmpty(results: seq<WebResult>)
    ensures AnswerText(results) != []
  {
    var answers := Answers(results);
    if answers != [] {
      AnswersStartWithStars(results);
      JoinNonEmpty(answers, AnswerSeparator);
    }
  }

  // ------------------------------------------------------------ the searcher

  class FreeWebSearcher {
    var hasWikipedia: bool
    var hasDuckDuckGo: bool

    /** Both integrations start disabled. */
    constructor()
      ensures !hasWikipedia && !hasDuckDuckGo
    {
      hasWikipedia := false;
      hasDuckDuckGo := false;
    }

    /** `search`. */
    method Search(maxResults: int, wiki: Option<seq<PageOutcome>>, ddg: Option<seq<DdgRecord>>)
      returns (results: seq<WebResult>)
      ensures results == SearchResults(hasWikipedia, hasDuckDuckGo, maxResults, wiki, ddg)
    {
      results := [];
      if hasWikipedia && wiki.Some? {
        var pages := wiki.value;
        var i := 0;
        while i < |pages|
          invariant 0 <= i <= |pages|
          invariant results == Kept(pages[..i])
          invariant |results| <= Max(maxResults, 0)
        {
          if |results| >= maxResults {
            break;
          }
          var p := pages[i];
          assert pages[..i + 1][..i] == pages[..i];
          if p.Page? && |p.summary| > MinSummary {
            results := results + [WikiResult(p)];
          }
          i := i + 1;
        }
        KeptPrefix(pages, i);
        assert results == WikiResults(pages, maxResults) by {
          if i == |pages| {
            assert pages[..i] == pages;
          }
        }
      }
      if results == [] && hasDuckDuckGo && ddg.Some? {
        var records := ddg.value;
        var j := 0;
        while j < |records|
          invariant 0 <= j <= |records|
          invariant results == DdgResults(records[..j])
        {
          results := results + [DdgResult(records[j])];
          j := j + 1;
        }
        assert records[..j] == records;
      }
    }

    /** `search_and_answer` with the default of three results. */
    method SearchAndAnswer(wiki: Option<seq<PageOutcome>>, ddg: Option<seq<DdgRecord>>) returns (answer: string)
      ensures answer == AnswerText(SearchResults(hasWikipedia, hasDuckDuckGo, 3, wiki, ddg))
      ensures answer != []
    {
      var results := Search(3, wiki, ddg);
      answer := ComposeAnswer(results);
    }
  }

  /** The answer-building part of `search_and_answer`: the formatted results
      that have content, joined, or the apology when there are none. */
  method ComposeAnswer(results: seq<WebResult>) returns (answer: string)
    ensures answer == AnswerText(results)
    ensures answer != []
  {
    AnswerNonEmpty(results);
    if results == [] {
      return NotFoundMessage;
    }
    var answers: seq<string> := [];
    var i := 0;
    while i < |results|
      invariant 0 <= i <= |results|
      invariant answers == Answers(results[..i])
    {
      var r := results[i];
      AnswersSnoc(results, i);
      if r.content != [] {
        answers := answers + [Formatted(r)];
      }
      i := i + 1;
    }
    assert results[..i] == results;
    if answers != [] {
      return JoinWith(answers, AnswerSeparator);
    }
    answer := NotFoundMessage;
  }

  /** With both integrations disabled, as the constructor leaves them, there
      are no results and the answer is the apology. */
  lemma DisabledGivesApology(maxResults: int, wiki: Option<seq<PageOutcome>>, ddg: Option<seq<DdgRecord>>)
    ensures SearchResults(false, false, maxResults, wiki, ddg) == []
    ensures AnswerText(SearchResults(false, false, maxResults, wiki, ddg)) == NotFoundMessage
  {
  }
}
