# RAgent core in Dafny

RAgent is a retrieval-augmented question-answering assistant. It lets a user upload documents and ask about them. The pieces are:

- a Python side:
  - a text splitter that cuts each document into overlapping chunks;
  - a Chroma vector store searched with source and label filters;
  - a RAG system that prompts a Groq chat model, with retries;
  - a free web searcher used as a fallback;
  - a line-oriented quiz parser;
  - a Streamlit front end, which routes between document and web answers and scores quizzes;
  - a FastAPI server keeping an in-memory document registry;
- a C# side:
  - a quiz endpoint that cuts a JSON array out of the model's reply;
  - a Groq client that also reads the server-sent event stream of a streaming completion.

This project models that core and proves properties of the model:

- Pure code is modelled as datatypes and functions:
  - the quiz parser's reading of lines;
  - the splitter's window arithmetic;
  - the search filters;
  - the prompts;
  - the routing decision;
  - the JSON-array slicing.
- Code that loops or updates state is modelled as methods with loop invariants, each proved against a specification function:
  - the parse loop, the split loop, the search loop, the retry loop, the web search loops and the stream-reading loop;
  - the classes whose fields change: `VectorDatabase`, `DocumentRegistry`, `FreeWebSearcher` and the C# client.

These are oracles, passed in as parameters:

- the embedder;
- the store's ranking;
- every chat-completion call;
- the Wikipedia and DuckDuckGo providers;
- the file loaders;
- JSON deserialisation.

| file | module | models |
|---|---|---|
| common.dfy | `Common` | `Option`, `Min`, `Max` |
| text.dfy | `Text` | Python and .NET string built-ins: `strip`/`Trim`, `split`/`join`, `find`/`rfind`, `IndexOf`/`LastIndexOf`, slicing, ASCII case mapping, decimal rendering |
| quiz_parser.dfy | `QuizParser` | `src/rag/quiz_generator.py` |
| text_splitter.dfy | `DocumentLoader` | `src/ingestion/document_loader.py` (suffix dispatch, `TextSplitter`) |
| vector_db.dfy | `VectorDb` | `src/embedding/vector_db.py` (`add_documents`, `search`) |
| rag_system.dfy | `RagSystem` | `src/rag/rag_system.py` |
| web_search.dfy | `WebSearch` | `src/rag/web_search.py` |
| app_routing.dfy | `App` | `app.py` (answer routing, quiz scoring) |
| api.dfy | `Api` | `api.py` (document registry, source filter, summary type) |
| quiz_endpoint.dfy | `QuizEndpoint` | `server/Features/QuizGeneration/QuizGeneratorEndpoint.cs` |
| ollama_client.dfy | `OllamaClient` | `server/Shared/AI/OllamaClient.cs` |

## Model

| member | source | states |
|---|---|---|
| Text.Trim | server/Features/QuizGeneration/QuizGeneratorEndpoint.cs:29 | the trimmed string is never longer; `TrimTrimmed`, `TrimIsSlice` and `TrimEmpty` state what it removes |
| Text.TrimTrimmed | server/Features/QuizGeneration/QuizGeneratorEndpoint.cs:29 | no removable whitespace is left at either end |
| Text.TrimIsSlice | server/Features/QuizGeneration/QuizGeneratorEndpoint.cs:29 | the trimmed string is a contiguous slice of the original |
| Text.TrimEmpty | src/rag/quiz_generator.py:83-85 | the trimmed string is empty exactly when the original is all whitespace |
| Text.Strip | src/rag/quiz_generator.py:83 | `Trim` over Python's whitespace class, which adds U+001C..U+001F to .NET's; `TrimTrimmed`, `TrimIsSlice` and `TrimEmpty` state it |
| Text.IndexOf | server/Features/QuizGeneration/QuizGeneratorEndpoint.cs:31 | -1 exactly when the character is absent; otherwise the position of its first occurrence |
| Text.LastIndexOf | server/Features/QuizGeneration/QuizGeneratorEndpoint.cs:32 | -1 exactly when the character is absent; otherwise the position of its last occurrence |
| Text.Split | src/rag/quiz_generator.py:80 | at least one piece, and no piece holds the separator |
| Text.JoinSplit | src/rag/quiz_generator.py:80 | joining the pieces of a split with the separator gives the string back |
| Text.SplitJoin | src/embedding/vector_db.py:77-144 | splitting a join of separator-free parts gives the parts back |
| Text.PySlice | src/ingestion/document_loader.py:223 | inside the bounds it is the plain slice; never longer than `j - i` |
| Text.RFind | src/ingestion/document_loader.py:219 | over the normalised slice bounds: -1 exactly when the range holds no such character; otherwise the last position holding it |
| QuizParser.AnswerLetter | src/rag/quiz_generator.py:104-107 | an accepted answer is exactly one of A-D after upper-casing |
| QuizParser.ReadLine | src/rag/quiz_generator.py:83-107 | an option line's key is one of A-D |
| QuizParser.Kind | src/rag/quiz_generator.py:83-107 | a line is read after Python's `strip()`, by `ReadLine`; `KindIsOk` states its keys and answer letters lie in A-D, and `KindsOfRenderLines` that a rendered line reads back as the stem, option or answer it carries |
| QuizParser.Step | src/rag/quiz_generator.py:88-107 | one iteration of the loop on a line's reading; `RunKeysOk` states it keeps keys and answers in A-D, `BlockBody` that options and answers only overwrite within a block, `RunConcat` that the scan runs line by line |
| QuizParser.ScanLine | src/rag/quiz_generator.py:82-107 | one loop iteration equals the scan step on the line's reading: a `Q…:` line commits an answered accumulator and opens a new one; option and ANSWER lines act only on an open accumulator |
| QuizParser.ParseQuestions | src/rag/quiz_generator.py:75-121 | the loop returns `Parse(response)`: at most five questions, each with option keys exactly A-D and an answer among them |
| QuizParser.Parse | src/rag/quiz_generator.py:75-121 | the reply split on newlines, scanned, filtered to four options and capped at five; `ParseWellFormed` states every result is well formed and at most five, `RoundTrip` that rendered questions come back unchanged |
| QuizParser.KindIsOk | src/rag/quiz_generator.py:98-107 | every line reads with option keys and answer letters among A-D |
| QuizParser.RunKeysOk | src/rag/quiz_generator.py:82-107 | the scan keeps every key and answer among A-D |
| QuizParser.FourKeys | src/rag/quiz_generator.py:98-101 | four keys drawn from A-D are exactly A-D |
| QuizParser.KeepFourWellFormed | src/rag/quiz_generator.py:114-118 | after the four-option filter, every question's keys are exactly A-D and its answer is one of them; the filter never grows the list |
| QuizParser.ParseWellFormed | src/rag/quiz_generator.py:104-121 | every returned question is well formed, and there are at most five |
| QuizParser.RunConcat | src/rag/quiz_generator.py:82-107 | scanning `a + b` is scanning `a`, then `b` |
| QuizParser.KindsConcat | src/rag/quiz_generator.py:80-83 | lines are read one at a time: the readings of `a + b` are those of `a` followed by those of `b` |
| QuizParser.BlankLineIgnored | src/rag/quiz_generator.py:83-85 | a blank or all-whitespace line inserted anywhere does not change the result |
| QuizParser.PreambleIgnored | src/rag/quiz_generator.py:98-104 | lines before the first question line are ignored, whatever they hold |
| QuizParser.PreambleRun | src/rag/quiz_generator.py:98-104 | without a question line the scan state stays the start state |
| QuizParser.BlockBody | src/rag/quiz_generator.py:97-107 | within a block: a later option line with the same letter overwrites the earlier text; a later valid ANSWER overwrites the earlier answer; nothing is committed |
| QuizParser.UnansweredBlockDropped | src/rag/quiz_generator.py:88-111 | a block whose answer is never set is dropped, as if its lines were absent |
| QuizParser.RoundTrip | src/rag/quiz_generator.py:39-121 | rendering well-formed one-line questions in the prompt's template and parsing the result gives back the first five of them, unchanged |
| QuizParser.ParseRendered | src/rag/quiz_generator.py:75-121 | the parse of the rendered lines is the first five questions |
| QuizParser.ParseAllKinds | src/rag/quiz_generator.py:82-121 | the parse of the readings of rendered questions is the first five questions |
| QuizParser.KindsOfRenderLines | src/rag/quiz_generator.py:39-107 | each rendered line reads back as the stem, option or answer it carries |
| QuizParser.RunAll | src/rag/quiz_generator.py:82-111 | scanning rendered questions commits exactly those questions, in order |
| QuizParser.KeepFourOfFour | src/rag/quiz_generator.py:114-118 | the four-option filter keeps every well-formed question |
| QuizParser.QuizPrompt | src/rag/quiz_generator.py:34-50 | the prompt contains the first 2000 characters of the document |
| QuizParser.GenerateQuiz | src/rag/quiz_generator.py:21-73 | the call carries the fixed system prompt and the built user prompt; a failing call or a null reply gives `[]`; otherwise the result is the parse of the reply, and it is always well formed and at most five |
| DocumentLoader.FileName | src/ingestion/document_loader.py:153 | the file name has no `/` |
| DocumentLoader.Suffix | src/ingestion/document_loader.py:153-154 | the suffix is empty, or a dot followed by at least one character, with no further dot and no `/` |
| DocumentLoader.FormatOf | src/ingestion/document_loader.py:156-166 | a loader is chosen exactly when the suffix is `.pdf`, `.txt`, `.docx` or `.pptx`, and otherwise none |
| DocumentLoader.LoaderFor | src/ingestion/document_loader.py:153-166 | the loader is the one whose suffix equals the lower-cased path suffix |
| DocumentLoader.SuffixOfName | src/ingestion/document_loader.py:153-154 | the suffix of `dir/stem.e` is `.e`, even when the stem has dots |
| DocumentLoader.LoaderForExtension | src/ingestion/document_loader.py:153-163 | the dispatch ignores ASCII case: `Report.PDF` goes to the PDF loader |
| DocumentLoader.DynamicSizes | src/ingestion/document_loader.py:193-209 | texts of at most 60000 characters use the splitter's own sizes; longer texts get a fixed window larger than its positive overlap |
| DocumentLoader.TiersGrow | src/ingestion/document_loader.py:198-206 | between the fixed tiers, a longer text never gets a smaller window or overlap |
| DocumentLoader.Cut | src/ingestion/document_loader.py:215-221 | the cut is `chunk` characters on, or a space after `start` inside the window |
| DocumentLoader.CutFacts | src/ingestion/document_loader.py:215-221 | inside the text, the cut is soft exactly when the window has a space after `start`, and no space lies between the cut and the window's end |
| DocumentLoader.WindowEnd | src/ingestion/document_loader.py:215-221 | the loop's end computation equals `Cut` |
| DocumentLoader.ChunkIsStrippedSlice | src/ingestion/document_loader.py:223 | a chunk is Python's `text[start:end].strip()` |
| DocumentLoader.ChunksOf | src/ingestion/document_loader.py:223-225 | the non-empty stripped slices of the windows, in order; `ChunksOfConcat` and `CutChunksShaped` state it |
| DocumentLoader.ChunksOfConcat | src/ingestion/document_loader.py:211-228 | the chunks of `a + b` windows are those of `a`, then those of `b` |
| DocumentLoader.WindowsUnique | src/ingestion/document_loader.py:214-228 | once the loop has stopped, more iterations visit no further windows |
| DocumentLoader.WindowsWithin | src/ingestion/document_loader.py:214-228 | the windows the loop visits within an iteration bound; `WindowsCut` and `WindowsUnique` state it |
| DocumentLoader.WindowsCut | src/ingestion/document_loader.py:214-221 | every visited window is cut by `Cut` |
| DocumentLoader.ChunkShape | src/ingestion/document_loader.py:223-225 | every chunk is trimmed, and no longer than the window |
| DocumentLoader.CutChunksShaped | src/ingestion/document_loader.py:223-225 | the kept chunks are non-empty, trimmed and no longer than the window |
| DocumentLoader.SplitText | src/ingestion/document_loader.py:183-231 | when the loop stops, the chunks are those of the windows it visits, in order; each is non-empty, trimmed and at most one window long; an empty text gives no chunks |
| DocumentLoader.SplitTextHangs | src/ingestion/document_loader.py:214-228 | with the default splitter, a text whose only space in its first 1101 characters is at index 301 never stops |
| DocumentLoader.CutAt301 | src/ingestion/document_loader.py:218-221 | on that text, the windows at 0 and at 101 are both cut at 301 |
| DocumentLoader.StuckAt101 | src/ingestion/document_loader.py:214-228 | on that text, the loop restarted at 101 never stops |
| DocumentLoader.SplitTextHangsOnExample | src/ingestion/document_loader.py:214-228 | one concrete 1102-character text on which the loop never stops |
| DocumentLoader.NextStart | src/ingestion/document_loader.py:228 | the corrected next start lies after `start`, and equals `end - overlap` whenever that already lies after it |
| DocumentLoader.ProgressingWindowsCut | src/ingestion/document_loader.py:214-221 | every window of the corrected splitter is cut by `Cut` |
| DocumentLoader.SplitTextProgressing | src/ingestion/document_loader.py:183-231 | the corrected split stops on every input; it returns the chunks of its windows, each non-empty, trimmed and at most one window long |
| DocumentLoader.ProgressingAgrees | src/ingestion/document_loader.py:214-228 | where every window advances by itself, the source loop stops and visits exactly the corrected windows |
| DocumentLoader.TerminatesWithoutOverlap | src/ingestion/document_loader.py:214-228 | without overlap the source loop stops, on the corrected windows |
| DocumentLoader.TerminatesWithoutSpaces | src/ingestion/document_loader.py:218-228 | on a text without spaces, a window longer than the overlap always advances, so the loop stops |
| VectorDb.DefaultIds | src/embedding/vector_db.py:65-66 | one id `doc_i` per text |
| VectorDb.DefaultIdsDistinct | src/embedding/vector_db.py:65-66 | the default ids are pairwise distinct |
| VectorDb.NormaliseMeta | src/embedding/vector_db.py:72-77 | keys are kept, plus `labels`; a missing `labels` becomes `""`; a list becomes its comma join; anything else is unchanged |
| VectorDb.NormaliseAll | src/embedding/vector_db.py:72-77 | returns every dict of the caller's list normalised, in order |
| VectorDb.NormalisedLabelsAreText | src/embedding/vector_db.py:72-77 | after normalisation `labels` is a string unless it held a number |
| VectorDb.Records | src/embedding/vector_db.py:80-85 | the i-th record pairs the i-th id, text and metadata |
| VectorDb.QuerySize | src/embedding/vector_db.py:123-126 | three times `k` when given, else three times `n_results`, never fewer than the number itself |
| VectorDb.LabelText | src/embedding/vector_db.py:143-144 | the `labels` value, `""` when missing or falsy; `VerdictOf` states it is `None` exactly where `.split` raises on a truthy non-string |
| VectorDb.NonEmptyStripped | src/embedding/vector_db.py:144 | the kept labels are non-empty |
| VectorDb.ParseLabels | src/embedding/vector_db.py:143-144 | parsed labels are non-empty |
| VectorDb.JoinThenParse | src/embedding/vector_db.py:77-144 | labels stored as a comma join parse back to the stripped non-empty labels |
| VectorDb.VerdictOf | src/embedding/vector_db.py:141-153 | a candidate raises exactly when its labels cannot be split; it is kept exactly when it passes both filters |
| VectorDb.AcceptedPass | src/embedding/vector_db.py:146-153 | the accepted candidates are candidates and pass both filters |
| VectorDb.ScanTakesAccepted | src/embedding/vector_db.py:140-162 | the scan fails exactly when a candidate whose labels cannot be split comes while fewer than `max(cap, 1)` hits are kept; otherwise it keeps the first `max(cap, 1)` accepted candidates |
| VectorDb.Scan | src/embedding/vector_db.py:140-162 | the post-filter loop; `ScanTakesAccepted` and `ScanFailsExactly` state what it keeps and when it fails |
| VectorDb.ScanFailsExactly | src/embedding/vector_db.py:140-162 | the scan fails exactly when a raising candidate comes before the cap, both directions |
| VectorDb.SearchIsCappedPrefix | src/embedding/vector_db.py:112-169 | the hits are `[]` when one of the first five fetched candidates has a list as its `source` (the logged `set(all_sources[:5])` raises) or a raising candidate comes before the cap; otherwise the first `max(n_results, 1)` accepted fetched candidates |
| VectorDb.SearchHitsPass | src/embedding/vector_db.py:140-162 | at most `max(n_results, 1)` hits, every one fetched and passing both filters |
| VectorDb.SearchResult | src/embedding/vector_db.py:112-169 | the whole of `search`, including the raise of the logged source set; `SearchIsCappedPrefix`, `SearchHitsPass` and `ListSourceEmptiesSearch` state which hits it returns |
| VectorDb.ListSourceEmptiesSearch | src/embedding/vector_db.py:135-169 | one fetched candidate whose `source` is a list gives no hits, although it passes the absent filters |
| VectorDb.SourceFilterHolds | src/embedding/vector_db.py:147-150 | a non-empty `allowed_sources` admits only hits whose source it lists |
| VectorDb.LabelFilterHolds | src/embedding/vector_db.py:151-153 | a non-empty `required_labels` admits only hits sharing one of its labels |
| VectorDb.NoFilterAcceptsAll | src/embedding/vector_db.py:146-153 | `None` and `[]` filters accept every candidate |
| VectorDb.VectorDatabase.constructor | src/embedding/vector_db.py:15-43 | readiness is whether the client opened; no records |
| VectorDb.VectorDatabase.AddDocuments | src/embedding/vector_db.py:45-92 | succeeds exactly when the collection exists, the store accepts, and the id and metadata counts match the texts; on success the batch is appended with default ids and normalised metadata; otherwise nothing changes |
| VectorDb.FilterHits | src/embedding/vector_db.py:139-162 | the filter loop returns the scan's hits: `[]` when a candidate's labels raise, otherwise the accepted candidates up to the cap |
| VectorDb.VectorDatabase.Search | src/embedding/vector_db.py:94-169 | the loop returns `SearchResult`: no collection, a raising store or an unhashable logged source gives `[]` |
| RagSystem.UserMessage | src/rag/rag_system.py:60-76 | the user message is the context head, then the joined context, then the question, then the fixed tail |
| RagSystem.RequestFor | src/rag/rag_system.py:63-93 | the request carries the model, the web or document system prompt as `from_web` says, and the user message |
| RagSystem.JoinWithConcat | src/rag/rag_system.py:60 | the joined context keeps the chunks in order |
| RagSystem.ContextOfOne | src/rag/rag_system.py:60 | one chunk is the whole context |
| RagSystem.FirstSuccess | src/rag/rag_system.py:83-96 | the first successful call among the first n, with every earlier call failing; or none when all fail |
| RagSystem.Delays | src/rag/rag_system.py:101-103 | the i-th sleep lasts `2 * (i + 1)` seconds |
| RagSystem.IsRateLimit | src/rag/rag_system.py:100 | an error whose text holds `429` or `Rate limit` is slept on even after the last call; `LastSleepOnRateLimit` states the resulting delays |
| RagSystem.AnswerOf | src/rag/rag_system.py:79-111 | the content of the first success among three calls, `None` without a client or after three failures; `GenerateAnswer`, `FirstReplyReturned`, `FailuresRetried` and `AllFailuresGiveNone` state it |
| RagSystem.CallCount | src/rag/rag_system.py:79-107 | the calls made up to the first success; `AtMostThreeCalls` bounds it by three, and `GenerateAnswer` ties the sent requests to it |
| RagSystem.SleepCount | src/rag/rag_system.py:97-103 | one sleep per failed call but the last, and one more after a final rate limit; `AtMostThreeCalls` bounds it by the calls, and `LastSleepOnRateLimit` gives the delays after three failures |
| RagSystem.GenerateAnswer | src/rag/rag_system.py:41-111 | no client gives `None` with no call; otherwise the content of the first success among three calls, or `None`; every call sends the same request; sleeps 2, 4, … follow each failure but the last, and the last too when it is a rate limit |
| RagSystem.AtMostThreeCalls | src/rag/rag_system.py:79-107 | at most three calls, and no more sleeps than calls |
| RagSystem.FirstReplyReturned | src/rag/rag_system.py:94-96 | a first success is the only call, with no sleep, and its content is returned |
| RagSystem.FailuresRetried | src/rag/rag_system.py:97-103 | failures of any kind on the first two calls are retried after 2 and 4 seconds |
| RagSystem.AllFailuresGiveNone | src/rag/rag_system.py:104-111 | three failures give `None` after three calls |
| RagSystem.LastSleepOnRateLimit | src/rag/rag_system.py:97-106 | after three failures the delays are 2 and 4 seconds, and 6 more exactly when the last failure reads as a rate limit |
| RagSystem.Texts | src/rag/rag_system.py:149 | the context is the hit texts, in rank order |
| RagSystem.ProcessQuestion | src/rag/rag_system.py:113-160 | no hits give the not-found message and no call; otherwise the answer generated from the hit texts with the document prompt, wrapped with the hits when sources are requested |
| RagSystem.SourcesAreHits | src/rag/rag_system.py:154-155 | the returned sources are the hits unchanged, with the generated answer |
| WebSearch.WikiResult | src/rag/web_search.py:52-57 | a Wikipedia result keeps the title and the first 500 characters of the summary |
| WebSearch.KeptFromUsable | src/rag/web_search.py:44-67 | every kept result comes from a page whose summary is longer than 50 characters |
| WebSearch.KeptPrefix | src/rag/web_search.py:44-57 | the results of a prefix of the pages are a prefix of all the results |
| WebSearch.DdgResult | src/rag/web_search.py:77-82 | a DuckDuckGo result takes the title or `Başlık yok`, and at most 500 characters of the body |
| WebSearch.DdgResults | src/rag/web_search.py:76-82 | one result per record, in order |
| WebSearch.WikiBounded | src/rag/web_search.py:44-57 | at most `max_results` Wikipedia results, each from a usable page and at most 500 characters long |
| WebSearch.DdgOnlyAsFallback | src/rag/web_search.py:72 | DuckDuckGo is consulted only when Wikipedia yields nothing |
| WebSearch.SearchResults | src/rag/web_search.py:26-87 | the capped Wikipedia results, or the DuckDuckGo results when there are none; `WikiBounded`, `DdgOnlyAsFallback` and `FreeWebSearcher.Search` state it |
| WebSearch.Formatted | src/rag/web_search.py:111 | `**title**: content`, with its parts in place |
| WebSearch.AnswersEmpty | src/rag/web_search.py:107-111 | there is an answer exactly when some result has content |
| WebSearch.AnswersStartWithStars | src/rag/web_search.py:111 | every formatted answer starts with `**` |
| WebSearch.AnswerNonEmpty | src/rag/web_search.py:100-118 | the answer text is never empty |
| WebSearch.AnswerText | src/rag/web_search.py:100-118 | the joined formatted answers, or the apology; `AnswerNonEmpty` and `AnswersEmpty` state it is never empty and when the apology is given |
| WebSearch.FreeWebSearcher.constructor | src/rag/web_search.py:15-24 | both integrations start disabled |
| WebSearch.FreeWebSearcher.Search | src/rag/web_search.py:26-87 | the loops return the capped Wikipedia results, or, when there are none, the DuckDuckGo results |
| WebSearch.FreeWebSearcher.SearchAndAnswer | src/rag/web_search.py:88-118 | searches for three results and answers for them, always with a non-empty answer |
| WebSearch.ComposeAnswer | src/rag/web_search.py:101-118 | the non-empty answer is the joined formatted results with content, or the apology |
| WebSearch.DisabledGivesApology | src/rag/web_search.py:20-103 | with both integrations disabled there are no results, and the answer is the apology |
| App.Displayed | app.py:306 | the displayed text is never empty, and is the answer itself when that is truthy |
| App.Route | app.py:251-302 | the routing block; `DocumentAnswerExactly`, `WebUsedExactly`, `DegradedWithoutWeb`, `NotFoundWithoutWeb` and `SearcherAnswerAlwaysUsed` state which answer it shows |
| App.DocumentAnswerExactly | app.py:254-286 | the document answer is shown, unchanged, exactly when the best distance is below 0.8 and the answer is usable |
| App.WebUsedExactly | app.py:263-299 | the web answer is used, unchanged, exactly when web search is on, a searcher exists, the documents gave no good match or no usable answer, and either the match was good or the web answer is truthy |
| App.DegradedWithoutWeb | app.py:273-284 | a good match with an unusable answer and no web gives the degraded message |
| App.NoHitsNotConfident | app.py:251-257 | without hits the best distance stays 1.0, which is not a good match |
| App.NotFoundWithoutWeb | app.py:300-302 | with web search off and no good match, the answer is the not-found message |
| App.SearcherAnswerAlwaysUsed | app.py:289-299 | the searcher's answer is never empty, so the "not found on the web either" branch is never taken |
| App.CountCorrect | app.py:374-378 | the count is the number of questions answered with their key |
| App.RightBeforeStep | app.py:375-378 | each question adds at most itself to the count |
| App.RightBounded | app.py:374-378 | at most one right answer per question |
| App.UnansweredIsWrong | app.py:376 | an unanswered question never counts |
| App.BandOf | app.py:380-390 | excellent exactly at 80% or more, good from 60% to below 80%, weak below 60% |
| App.BandMonotone | app.py:385-390 | a higher count never gets a lower band |
| App.FiveQuestionBands | app.py:380-390 | on five questions: four or five right is excellent, three is good, two is weak |
| Api.LabelList | api.py:120 | no labels, or empty labels, give `[]`; otherwise the comma split |
| Api.LabelsMetadataIsFormValue | api.py:120-124 | the stored `labels` metadata is the form value itself, or `""` when there is none |
| Api.ChunkIds | api.py:128 | one id `doc_id_i` per chunk |
| Api.ChunkIdsDistinct | api.py:128 | the chunk ids are pairwise distinct |
| Api.Filenames | api.py:210-212 | the filenames of exactly the registered requested ids |
| Api.FilenamesConcat | api.py:210-212 | the filenames of a request in two parts are those of the first part, then those of the second |
| Api.AllowedSources | api.py:208-212 | `None` exactly when no ids are requested; otherwise the registered filenames |
| Api.AllKnownInOrder | api.py:210-212 | when all requested ids are registered, their filenames one for one, in request order |
| Api.AllUnknownEmpty | api.py:210-212 | when no requested id is registered the filter is `[]` |
| Api.SummaryType | api.py:301-306 | `detaylı` maps to detailed, `madde` to bullet, anything else to general |
| Api.DocumentRegistry.constructor | api.py:52 | the registry starts empty |
| Api.DocumentRegistry.Upload | api.py:97-157 | a failed load gives a 500 carrying the error, and the store is unchanged; otherwise one active entry under the new id, with the split labels |
| Api.DocumentRegistry.Delete | api.py:178-197 | an unknown id, or a failing store delete, gives a 500 and leaves the store unchanged; otherwise exactly that entry is removed |
| Api.DocumentRegistry.UpdateLabels | api.py:323-337 | an unknown id gives a 500; otherwise only that entry's labels change |
| Api.DocumentRegistry.UpdateStatus | api.py:340-354 | an unknown id gives a 500; otherwise only that entry's active flag changes |
| Api.DocumentRegistry.ClearDatabase | api.py:357-369 | as written, the call raises a 500 and the registry is not cleared |
| Api.DocumentRegistry.ClearDatabaseIntended | api.py:357-369 | as intended, the registry is emptied when the store clears, and is unchanged when the store clear raises |
| Api.ClearAsWrittenLeavesEntry | api.py:357-369 | after one upload, clearing fails and the uploaded entry remains |
| QuizEndpoint.RemoveAll | server/Features/QuizGeneration/QuizGeneratorEndpoint.cs:27-28 | removal never lengthens the reply |
| QuizEndpoint.RemoveAllShort | server/Features/QuizGeneration/QuizGeneratorEndpoint.cs:27-28 | a reply shorter than the pattern is unchanged |
| QuizEndpoint.RemoveAllKeepsFreePrefix | server/Features/QuizGeneration/QuizGeneratorEndpoint.cs:27-28 | a prefix without the pattern's first character is kept |
| QuizEndpoint.RemoveAllLeading | server/Features/QuizGeneration/QuizGeneratorEndpoint.cs:27-28 | a leading occurrence of the pattern is removed |
| QuizEndpoint.Clean | server/Features/QuizGeneration/QuizGeneratorEndpoint.cs:26-29 | both fences removed everywhere, then trimmed; `FencedReplyCleansToBody` and `UnfencedReplyOnlyTrimmed` state it |
| QuizEndpoint.FencedReplyCleansToBody | server/Features/QuizGeneration/QuizGeneratorEndpoint.cs:26-29 | a reply fenced as a JSON code block cleans to its trimmed body |
| QuizEndpoint.UnfencedReplyOnlyTrimmed | server/Features/QuizGeneration/QuizGeneratorEndpoint.cs:26-29 | a reply without backticks is only trimmed |
| QuizEndpoint.ArraySlice | server/Features/QuizGeneration/QuizGeneratorEndpoint.cs:31-39 | missing brackets give no slice; a last `]` more than one place before the first `[` is a negative length; otherwise the text from the first `[` to the last `]`, which starts with `[` and ends with `]`, or is empty exactly when the `]` sits just before the `[` |
| QuizEndpoint.BracketedSlicesToItself | server/Features/QuizGeneration/QuizGeneratorEndpoint.cs:31-39 | an array already in place is sliced as it is |
| QuizEndpoint.UserPrompt | server/Features/QuizGeneration/QuizGeneratorEndpoint.cs:23 | the prompt starts with `Text: ` and the source text, and ends with the difficulty clause |
| QuizEndpoint.Handle | server/Features/QuizGeneration/QuizGeneratorEndpoint.cs:26-53 | no array gives the no-array problem; a negative length escapes the handler; otherwise the deserialised list, or the parse problem |
| QuizEndpoint.FencedArrayDeserialised | server/Features/QuizGeneration/QuizGeneratorEndpoint.cs:26-48 | a fenced array reaches the deserialiser as exactly the array |
| QuizEndpoint.ReversedBrackets | server/Features/QuizGeneration/QuizGeneratorEndpoint.cs:31-39 | `][` slices to the empty text; `] [` is a negative length |
| QuizEndpoint.ReversedBracketsEscape | server/Features/QuizGeneration/QuizGeneratorEndpoint.cs:31-39 | as written, the reply `] [` escapes the handler |
| QuizEndpoint.HandleGuarded | server/Features/QuizGeneration/QuizGeneratorEndpoint.cs:31-53 | the guarded handler never lets an exception escape, and agrees with the handler wherever there is a slice |
| OllamaClient.ProcessResult | server/Shared/AI/OllamaClient.cs:58-67 | the content, or `Hata: Cevap boş.` for null; `Hata: ` or `Beklenmeyen hata: ` and the message for failures; it never throws |
| OllamaClient.FailuresArePrefixed | server/Shared/AI/OllamaClient.cs:60-67 | the string of a failure starts with one of the two error prefixes |
| OllamaClient.DataLineNotBlank | server/Shared/AI/OllamaClient.cs:107-109 | a `data: ` line is never blank |
| OllamaClient.StepOf | server/Shared/AI/OllamaClient.cs:107-121 | blank and non-`data: ` lines are skipped; `[DONE]` finishes; a payload with content gives one token, with `""` for null; a malformed payload throws |
| OllamaClient.Stream | server/Shared/AI/OllamaClient.cs:104-123 | the tokens and end of reading the body lines; `StreamConcat`, `DoneEndsStream`, `TokensGrow` and `TokensBounded` state it |
| OllamaClient.StreamTokens | server/Shared/AI/OllamaClient.cs:104-123 | the loop yields exactly `Stream(lines)` and ends as it says |
| OllamaClient.StreamConcat | server/Shared/AI/OllamaClient.cs:104-123 | reading `a + b` is reading `a`, then `b` if `a` ran out |
| OllamaClient.SkippedLineIgnored | server/Shared/AI/OllamaClient.cs:107-121 | a skipped line can be removed anywhere without changing the stream |
| OllamaClient.BlankLineIgnored | server/Shared/AI/OllamaClient.cs:107 | blank lines produce nothing and do not stop the stream |
| OllamaClient.NonDataLineIgnored | server/Shared/AI/OllamaClient.cs:109 | lines without the exact `data: ` prefix are ignored |
| OllamaClient.NoContentIgnored | server/Shared/AI/OllamaClient.cs:118 | a payload without `delta.content` yields nothing |
| OllamaClient.DoneEndsStream | server/Shared/AI/OllamaClient.cs:111-112 | `data: [DONE]` ends the stream: no later line is read, and the tokens before it stand |
| OllamaClient.ContentYieldsOneToken | server/Shared/AI/OllamaClient.cs:118-121 | a payload with content yields exactly one token after the earlier ones, `""` for null |
| OllamaClient.TokensGrow | server/Shared/AI/OllamaClient.cs:104-123 | a yielded token is never taken back: the tokens of a prefix of the body are a prefix of the tokens of the whole body |
| OllamaClient.TokensBounded | server/Shared/AI/OllamaClient.cs:104-123 | never more tokens than lines |
| OllamaClient.Client.constructor | server/Shared/AI/OllamaClient.cs:14-23 | no system prompt before the first request |
| OllamaClient.Client.ProcessRequest | server/Shared/AI/OllamaClient.cs:25-67 | records the agent's system prompt; posts a non-streaming body for the fixed model; returns `ProcessResult` |
| OllamaClient.Client.StreamRequest | server/Shared/AI/OllamaClient.cs:70-123 | records the system prompt; posts a streaming body; yields exactly `Stream(lines)` |

## Left out

- File loaders: PDF, DOCX, PPTX and text loading, and file I/O, are foreign calls. The dispatch returns which loader runs, and an upload receives the loaded text's length or the error raised.
- Embedding and the Chroma store are oracles:
  - `search` receives the store's ranking, or `None` when embedding or the query raises;
  - `add_documents` receives whether the store accepts the batch.
- The ranking passed to `VectorDatabase.Search` is not tied to the records `AddDocuments` appended, because the store's similarity ranking is not modelled.
- Chroma's own validation is not modelled, except that it refuses id or metadata lists whose length differs from the texts'. An empty batch is left to the `accepted` flag.
- Every chat-completion call is an oracle:
  - the RAG system's calls are a list of replies, and a call past the end of the list fails;
  - the quiz generator's call is one outcome;
  - the C# client's post is one outcome, and its stream is the list of body lines.
- `time.sleep` is recorded as the list of delays requested, not as time passing.
- JSON parsing in the C# files is an oracle, from a text to its value or to a failure.
- `EnsureSuccessStatusCode` in `StreamRequestAsync` is not modelled: the stream is read as after a successful status. The exception a failed status raises out of the enumeration is not modelled.
- OllamaClient.StepOf: .NET's culture-sensitive `StartsWith(string)` is modelled as an ordinal prefix test, because ICU's treatment of ignorable characters is not modelled.
- Strings are sequences of Unicode scalar values. .NET indexes UTF-16 code units, so for text outside the Basic Multilingual Plane the C# positions are not modelled.
- QuizParser.ReadLine: the `ANSWER:` test upper-cases the line with ASCII case mapping only. Python's Unicode `.upper()` also turns, for instance, `ſ` (U+017F) into `S`, so `anſwer: B` is an answer line there and not here. The same holds for `QuizParser.Kind` and `QuizParser.ScanLine`, which read lines through `ReadLine`. The answer letter is unaffected, because only `A`-`D` and `a`-`d` upper-case to `A`-`D`.
- DocumentLoader.FileName: the name is the text after the last `/`. `pathlib` also drops a trailing `/` and `.` components before taking the name, so `dir/a.pdf/` has the suffix `.pdf` there and none here.
- App.Unusable: `.lower()` is modelled as ASCII lower-casing. Turkish and other non-ASCII case mappings are not modelled.
- Floating point:
  - distances are reals used only in the `< 0.8` comparison;
  - the score is compared as an exact fraction;
  - the `:.3f` and `:.1%` renderings are not modelled, and the degraded message receives the rendered percentage as text.
- DocumentLoader.SplitText: the source loop need not stop, so the method requires that it stops. Its result is stated for every iteration bound within which the loop stops.
- Python's negative slice indices are modelled, as they are in `text[start:end]`, but negative window sizes are only carried through `Cut`. `WellShaped` bounds chunk length only for a non-negative window.
- Dicts are modelled as values:
  - the identity of the caller's metadata dicts, which `add_documents` mutates in place, is not modelled, so the caller does not see the mutation;
  - a question's `options` is a map, so the insertion order of its keys, which the quiz page in `app.py` shows as the order of the choices, is not modelled either.
- The upload path's chunk handling is not modelled beyond the registry entry and the `labels` metadata. There, the loaded text rather than a chunk list is passed to `add_documents`.
- The quiz endpoint in `api.py` passes an argument `generate_quiz` does not accept, and is not modelled.
- `get_documents`, `delete_collection`, the summariser, voice playback, the Streamlit widgets, CORS and DI wiring, and `AgentFactory`'s constant prompt table are not part of this model. They hold no logic beyond calls into libraries or constants.
- MD5 hashing of uploads is an oracle: the hash arrives as text.

## Findings

| source | as written | input that shows it | evidently intended | confidence | as-written member | corrected member |
|---|---|---|---|---|---|---|
| src/ingestion/document_loader.py:218-228 | the next window starts at `end - overlap` even when that is not after `start`, so the loop can revisit the same window forever | the default splitter on a 1102-character text whose only space is at index 301: the windows at 0 and 101 are both cut at 301, and 301 - 200 = 101 | every window starts after the previous one, so the split always stops | high (not executed) | DocumentLoader.SplitTextHangs, DocumentLoader.SplitTextHangsOnExample | DocumentLoader.SplitTextProgressing |
| api.py:361 | `clear_database` calls `vector_db.clear_database()`, which `VectorDatabase` does not define, so every clear fails with a 500 before the registry is cleared | any request to clear, for instance after one upload | the vector store and the registry are both emptied | high (not executed) | Api.DocumentRegistry.ClearDatabase, Api.ClearAsWrittenLeavesEntry | Api.DocumentRegistry.ClearDatabaseIntended |
| server/Features/QuizGeneration/QuizGeneratorEndpoint.cs:34-39 | when the last `]` comes more than one place before the first `[`, `Substring` gets a negative length and throws `ArgumentOutOfRangeException`, which escapes the handler | the reply `] [` | such a reply is answered like one without an array | medium (not executed) | QuizEndpoint.Handle, QuizEndpoint.ReversedBracketsEscape | QuizEndpoint.HandleGuarded |
