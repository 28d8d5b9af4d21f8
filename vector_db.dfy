/**
 * The vector store wrapper `VectorDatabase`: the metadata normalisation of
 * `add_documents` and the post-filter of `search`.
 *
 * The embedding model and the similarity ranking are not modelled: `search`
 * receives the store's ranked candidates as an input (`None` when the
 * embedder or the store query raises), and `add_documents` receives whether
 * the embedder and the store accept the batch.
 */
module VectorDb {
  import opened Common
  import opened Text

  /** A metadata value: a string, a list of strings, or a number. */
  datatype Value = Str(s: string) | List(items: seq<string>) | Num(n: int)

  type Meta = map<string, Value>

  /** One stored record. */
  datatype Entry = Entry(id: string, text: string, metadata: Meta)

  /** One search result: `{'text', 'distance', 'metadata'}`. */
  datatype Hit = Hit(text: string, distance: real, metadata: Meta)

  /** The optional filters of `search`. */
  datatype Filter = Filter(allowedSources: Option<seq<string>>, requiredLabels: Option<seq<string>>)

  // ------------------------------------------------------------ add_documents

  /** The ids `doc_0`, `doc_1`, ... used when the caller gives none. */
  function DefaultIds(n: nat): (r: seq<string>)
    ensures |r| == n
    ensures forall i :: 0 <= i < n ==> r[i] == "doc_" + NatToString(i)
  {
    seq(n, i requires 0 <= i => "doc_" + NatToString(i))
  }

  /** The default ids are pairwise distinct. */
  lemma DefaultIdsDistinct(n: nat)
    ensures forall i, j :: 0 <= i < j < n ==> DefaultIds(n)[i] != DefaultIds(n)[j]
  {
    forall i, j | 0 <= i < j < n ensures DefaultIds(n)[i] != DefaultIds(n)[j] {
      NatToStringInjective(i, j);
      assert DefaultIds(n)[i][4..] == NatToString(i);
      assert DefaultIds(n)[j][4..] == NatToString(j);
    }
  }

  /** The metadata given to every text when the caller gives none. */
  const DefaultMeta: Meta := map["source" := Str("unknown"), "labels" := Str("")]

  /** One metadata dict after normalisation: a missing `labels` becomes `""`,
      a list of labels is joined with commas, anything else is kept. */
  function NormaliseMeta(meta: Meta): (r: Meta)
    ensures r.Keys == meta.Keys + {"labels"}
    ensures forall key :: key in meta && key != "labels" ==> r[key] == meta[key]
    ensures "labels" !in meta ==> r["labels"] == Str("")
    ensures "labels" in meta && meta["labels"].List? ==> r["labels"] == Str(Join(meta["labels"].items, ','))
    ensures "labels" in meta && !meta["labels"].List? ==> r["labels"] == meta["labels"]
  {
    if "labels" !in meta then meta["labels" := Str("")]
    else if meta["labels"].List? then meta["labels" := Str(Join(meta["labels"].items, ','))]
    else meta
  }

  /** The loop of `add_documents` over the caller's metadata list. */
  method NormaliseAll(metas: seq<Meta>) returns (out: seq<Meta>)
    ensures |out| == |metas|
    ensures forall i :: 0 <= i < |metas| ==> out[i] == NormaliseMeta(metas[i])
  {
    out := [];
    var i := 0;
    while i < |metas|
      invariant 0 <= i <= |metas|
      invariant |out| == i
      invariant forall j :: 0 <= j < i ==> out[j] == NormaliseMeta(metas[j])
    {
      out := out + [NormaliseMeta(metas[i])];
      i := i + 1;
    }
  }

  /** Every normalised dict carries a string `labels` unless that key held a number. */
  lemma NormalisedLabelsAreText(meta: Meta)
    requires "labels" !in meta || !meta["labels"].Num?
    ensures "labels" in NormaliseMeta(meta) && NormaliseMeta(meta)["labels"].Str?
  {
  }

  /** The records a batch becomes. */
  function Records(ids: seq<string>, texts: seq<string>, metas: seq<Meta>): (r: seq<Entry>)
    requires |ids| == |texts| == |metas|
    ensures |r| == |texts|
    ensures forall i :: 0 <= i < |r| ==> r[i] == Entry(ids[i], texts[i], metas[i])
  {
    seq(|texts|, i requires 0 <= i < |texts| => Entry(ids[i], texts[i], metas[i]))
  }

  // ------------------------------------------------------------------ search

  /** How many candidates are requested from the store: three times `k`
      when it is given, else three times `n_results`, but never fewer than
      the number itself. */
  function QuerySize(nResults: int, k: Option<int>): (r: int)
    ensures k.Some? && k.value >= 0 ==> r == 3 * k.value
    ensures k.None? && nResults >= 0 ==> r == 3 * nResults
    ensures k.Some? && k.value < 0 ==> r == k.value
    ensures k.None? && nResults < 0 ==> r == nResults
  {
    match k
    case Some(kv) => Max(kv * 3, kv)
    case None => Max(nResults * 3, nResults)
  }

  /** `labels_str`: the value of `labels`, where a missing or falsy value is
      `""`; `None` where a truthy non-string value makes `.split` raise. */
  function LabelText(meta: Meta): Option<string> {
    var v := if "labels" in meta then meta["labels"] else Str("");
    match v
    case Str(s) => Some(s)
    case List(items) => if items == [] then Some("") else None
    case Num(n) => if n == 0 then Some("") else None
  }

  /** The stripped, non-empty pieces. */
  function NonEmptyStripped(parts: seq<string>): (r: seq<string>)
    ensures forall i :: 0 <= i < |r| ==> r[i] != []
  {
    if parts == [] then []
    else if Strip(parts[0]) == [] then NonEmptyStripped(parts[1..])
    else [Strip(parts[0])] + NonEmptyStripped(parts[1..])
  }

  /** A comma-separated label string as a list of labels. */
  function ParseLabels(s: string): (r: seq<string>)
    ensures forall i :: 0 <= i < |r| ==> r[i] != []
  {
    if s == [] then [] else NonEmptyStripped(Split(s, ','))
  }

  /** Storing a list of labels joined by commas and parsing it back gives the
      non-empty stripped labels, provided no label holds a comma. */
  lemma JoinThenParse(labels: seq<string>)
    requires forall i :: 0 <= i < |labels| ==> ',' !in labels[i]
    ensures ParseLabels(Join(labels, ',')) == NonEmptyStripped(labels)
  {
    if labels != [] {
      SplitJoin(labels, ',');
      if Join(labels, ',') == [] {
        assert Split([], ',') == [[]];
        assert labels == [[]];
        assert Strip([]) == [] by { TrimEmpty([], Py); }
      }
    }
  }

  /** The source filter: applied only when `allowed_sources` is a non-empty list. */
  predicate SourceOk(f: Filter, meta: Meta) {
    f.allowedSources.None? || f.allowedSources.value == []
    || ("source" in meta && meta["source"].Str? && meta["source"].s in f.allowedSources.value)
  }

  /** The label filter: applied only when `required_labels` is non-empty;
      a hit then needs at least one of the required labels. */
  predicate LabelsOk(f: Filter, labels: seq<string>) {
    f.requiredLabels.None? || f.requiredLabels.value == []
    || (labels != [] && exists l :: l in f.requiredLabels.value && l in labels)
  }

  predicate Passes(f: Filter, h: Hit) {
    SourceOk(f, h.metadata) && LabelsOk(f, ParseLabels(LabelText(h.metadata).GetOr("")))
  }

  /** What the loop of `search` does with one candidate. */
  datatype Verdict = Raises | Skips | Keeps

  function VerdictOf(f: Filter, h: Hit): (v: Verdict)
    ensures v == Raises <==> LabelText(h.metadata).None?
    ensures v == Keeps <==> LabelText(h.metadata).Some? && Passes(f, h)
  {
    if LabelText(h.metadata).None? then Raises
    else if Passes(f, h) then Keeps
    else Skips
  }

  /** The loop of `search`: scans the candidates with the hits kept so far in
      `acc`, stops once `cap` hits are kept, and is `None` when a candidate's
      labels make it raise. */
  function Scan(cands: seq<Hit>, f: Filter, cap: int, acc: seq<Hit>): Option<seq<Hit>>
    decreases |cands|
  {
    if cands == [] then Some(acc)
    else
      match VerdictOf(f, cands[0])
      case Raises => None
      case Skips => Scan(cands[1..], f, cap, acc)
      case Keeps =>
        if |acc| + 1 >= cap then Some(acc + [cands[0]])
        else Scan(cands[1..], f, cap, acc + [cands[0]])
  }

  /** Every candidate that passes both filters, in store order: the reference
      the scan is checked against. */
  function Accepted(cands: seq<Hit>, f: Filter): seq<Hit>
  {
    if cands == [] then []
    else if Passes(f, cands[0]) then [cands[0]] + Accepted(cands[1..], f)
    else Accepted(cands[1..], f)
  }

  /** The accepted candidates are candidates, and pass both filters. */
  lemma {:induction false} AcceptedPass(cands: seq<Hit>, f: Filter)
    ensures forall h :: h in Accepted(cands, f) ==> h in cands && Passes(f, h)
    decreases |cands|
  {
    if cands != [] {
      AcceptedPass(cands[1..], f);
    }
  }

  /** No candidate makes the label parsing raise. */
  predicate AllParse(cands: seq<Hit>) {
    forall i :: 0 <= i < |cands| ==> LabelText(cands[i].metadata).Some?
  }

  /** The scan keeps exactly the first `max(cap, 1)` accepted candidates, or
      fails; it fails exactly when a candidate whose labels cannot be parsed
      is reached before the cap. */
  lemma {:induction false} ScanTakesAccepted(cands: seq<Hit>, f: Filter, cap: int, acc: seq<Hit>)
    requires |acc| < Max(cap, 1)
    ensures ScanMatches(cands, f, cap, acc)
    ensures Scan(cands, f, cap, acc) == None <==> RaisesBeforeCap(cands, f, cap, acc)
    decreases |cands|
  {
    ScanFailsExactly(cands, f, cap, acc);
    if cands != [] {
      match VerdictOf(f, cands[0])
      case Raises =>
        AllParseTail(cands);
      case Skips =>
        ScanTakesAccepted(cands[1..], f, cap, acc);
        ScanSkips(cands, f, cap, acc);
      case Keeps =>
        if |acc| + 1 < Max(cap, 1) {
          ScanTakesAccepted(cands[1..], f, cap, acc + [cands[0]]);
        }
        ScanKeeps(cands, f, cap, acc);
    }
  }

  /** What `ScanTakesAccepted` states: the scan fails or keeps the first
      `max(cap, 1)` accepted candidates, and fails only on a raising candidate. */
  predicate ScanMatches(cands: seq<Hit>, f: Filter, cap: int, acc: seq<Hit>) {
    (Scan(cands, f, cap, acc) == None
     || Scan(cands, f, cap, acc) == Some(Take(acc + Accepted(cands, f), Max(cap, 1))))
    && (AllParse(cands) ==> Scan(cands, f, cap, acc) == Some(Take(acc + Accepted(cands, f), Max(cap, 1))))
  }

  lemma ScanSkips(cands: seq<Hit>, f: Filter, cap: int, acc: seq<Hit>)
    requires cands != [] && VerdictOf(f, cands[0]) == Skips
    requires ScanMatches(cands[1..], f, cap, acc)
    ensures ScanMatches(cands, f, cap, acc)
  {
    AllParseTail(cands);
  }

  lemma ScanKeeps(cands: seq<Hit>, f: Filter, cap: int, acc: seq<Hit>)
    requires cands != [] && VerdictOf(f, cands[0]) == Keeps && |acc| < Max(cap, 1)
    requires |acc| + 1 < Max(cap, 1) ==> ScanMatches(cands[1..], f, cap, acc + [cands[0]])
    ensures ScanMatches(cands, f, cap, acc)
  {
    AllParseTail(cands);
    assert Accepted(cands, f) == [cands[0]] + Accepted(cands[1..], f);
    if |acc| + 1 < Max(cap, 1) {
      ScanKeepsMore(cands, f, cap, acc);
    } else {
      assert Scan(cands, f, cap, acc) == Some(acc + [cands[0]]);
      TakeKept(acc, cands[0], Accepted(cands[1..], f), Max(cap, 1));
    }
  }

  lemma ScanKeepsMore(cands: seq<Hit>, f: Filter, cap: int, acc: seq<Hit>)
    requires cands != [] && VerdictOf(f, cands[0]) == Keeps && |acc| + 1 < Max(cap, 1)
    requires Accepted(cands, f) == [cands[0]] + Accepted(cands[1..], f)
    requires AllParse(cands) ==> AllParse(cands[1..])
    requires ScanMatches(cands[1..], f, cap, acc + [cands[0]])
    ensures ScanMatches(cands, f, cap, acc)
  {
    Assoc(acc, [cands[0]], Accepted(cands[1..], f));
  }

  /** The scan from position `i` looks at `cands[i]`, then goes on from `i + 1`. */
  lemma ScanAt(cands: seq<Hit>, i: int, f: Filter, cap: int, acc: seq<Hit>)
    requires 0 <= i < |cands|
    ensures Scan(cands[i..], f, cap, acc) ==
      match VerdictOf(f, cands[i])
      case Raises => None
      case Skips => Scan(cands[i + 1..], f, cap, acc)
      case Keeps =>
        if |acc| + 1 >= cap then Some(acc + [cands[i]]) else Scan(cands[i + 1..], f, cap, acc + [cands[i]])
  {
    assert cands[i..][0] == cands[i];
    assert cands[i..][1..] == cands[i + 1..];
  }

  lemma AllParseTail(cands: seq<Hit>)
    requires cands != []
    ensures AllParse(cands) ==> AllParse(cands[1..])
  {
    if AllParse(cands) {
      forall i | 0 <= i < |cands| - 1 ensures LabelText(cands[1..][i].metadata).Some? {
        assert cands[1..][i] == cands[i + 1];
      }
    }
  }

  lemma TakeKept(acc: seq<Hit>, c: Hit, rest: seq<Hit>, n: int)
    requires n == |acc| + 1
    ensures Take(acc + ([c] + rest), n) == acc + [c]
  {
    var all := acc + ([c] + rest);
    assert all[..n] == acc + [c];
  }

  /** Some candidate whose labels cannot be parsed comes while fewer than
      `max(cap, 1)` hits are kept, counting the `acc` kept before. */
  predicate RaisesBeforeCap(cands: seq<Hit>, f: Filter, cap: int, acc: seq<Hit>) {
    exists i :: 0 <= i < |cands| && LabelText(cands[i].metadata).None?
      && |acc| + |Accepted(cands[..i], f)| < Max(cap, 1)
  }

  /** The scan fails exactly when a raising candidate comes before the cap. */
  lemma {:induction false} ScanFailsExactly(cands: seq<Hit>, f: Filter, cap: int, acc: seq<Hit>)
    requires |acc| < Max(cap, 1)
    ensures Scan(cands, f, cap, acc) == None <==> RaisesBeforeCap(cands, f, cap, acc)
    decreases |cands|
  {
    if cands != [] {
      match VerdictOf(f, cands[0])
      case Raises =>
        assert cands[..0] == [];
        assert LabelText(cands[0].metadata).None? && |acc| + |Accepted(cands[..0], f)| < Max(cap, 1);
      case Skips =>
        ScanFailsExactly(cands[1..], f, cap, acc);
        RaisesShift(cands, f, cap, acc, acc);
      case Keeps =>
        if |acc| + 1 < Max(cap, 1) {
          ScanFailsExactly(cands[1..], f, cap, acc + [cands[0]]);
          RaisesShift(cands, f, cap, acc, acc + [cands[0]]);
        } else {
          KeptToCapNoRaise(cands, f, cap, acc);
        }
    }
  }

  /** The candidates accepted among the first `i + 1` are the first one, when
      it passes, followed by those accepted among the next `i`. */
  lemma AcceptedShift(cands: seq<Hit>, f: Filter, i: int)
    requires 0 <= i < |cands|
    ensures Accepted(cands[..i + 1], f)
      == (if Passes(f, cands[0]) then [cands[0]] else []) + Accepted(cands[1..][..i], f)
  {
    var p := cands[..i + 1];
    assert p[0] == cands[0];
    assert p[1..] == cands[1..][..i];
  }

  /** Past a first candidate that does not raise, a raising candidate before
      the cap is one of the rest, with the first one counted when it is kept. */
  lemma RaisesShift(cands: seq<Hit>, f: Filter, cap: int, acc: seq<Hit>, next: seq<Hit>)
    requires cands != [] && LabelText(cands[0].metadata).Some?
    requires next == acc + (if Passes(f, cands[0]) then [cands[0]] else [])
    ensures RaisesBeforeCap(cands, f, cap, acc) <==> RaisesBeforeCap(cands[1..], f, cap, next)
  {
    var tail := cands[1..];
    if RaisesBeforeCap(cands, f, cap, acc) {
      var i :| 0 <= i < |cands| && LabelText(cands[i].metadata).None?
        && |acc| + |Accepted(cands[..i], f)| < Max(cap, 1);
      AcceptedShift(cands, f, i - 1);
      assert tail[i - 1] == cands[i];
      assert |next| + |Accepted(tail[..i - 1], f)| < Max(cap, 1);
    }
    if RaisesBeforeCap(tail, f, cap, next) {
      var i :| 0 <= i < |tail| && LabelText(tail[i].metadata).None?
        && |next| + |Accepted(tail[..i], f)| < Max(cap, 1);
      AcceptedShift(cands, f, i);
      assert cands[i + 1] == tail[i];
      assert |acc| + |Accepted(cands[..i + 1], f)| < Max(cap, 1);
    }
  }

  /** Once a kept first candidate fills the cap, no later candidate comes
      before the cap. */
  lemma KeptToCapNoRaise(cands: seq<Hit>, f: Filter, cap: int, acc: seq<Hit>)
    requires cands != [] && VerdictOf(f, cands[0]) == Keeps && |acc| + 1 >= Max(cap, 1)
    ensures !RaisesBeforeCap(cands, f, cap, acc)
  {
    forall i | 0 <= i < |cands| && LabelText(cands[i].metadata).None?
      ensures |acc| + |Accepted(cands[..i], f)| >= Max(cap, 1)
    {
      AcceptedShift(cands, f, i - 1);
    }
  }

  /** Logging `set(all_sources[:5])` raises: one of the first five fetched
      candidates has a list as its `source`, which a set cannot hold. The
      f-string is built before the filter loop, whether or not it is logged. */
  predicate SourcesUnhashable(fetched: seq<Hit>) {
    exists i :: 0 <= i < |fetched| && i < 5
      && "source" in fetched[i].metadata && fetched[i].metadata["source"].List?
  }

  /** The whole of `search`: no collection, a raising embedder or store, an
      unhashable logged source, or a raising label parse all give `[]`. */
  function SearchResult(ready: bool, ranked: Option<seq<Hit>>, nResults: int, f: Filter, k: Option<int>): seq<Hit> {
    if !ready || ranked.None? then []
    else
      var fetched := Take(ranked.value, QuerySize(nResults, k));
      if SourcesUnhashable(fetched) then []
      else Scan(fetched, f, nResults, []).GetOr([])
  }

  /** The hits are the first accepted candidates among those fetched, at most
      `n_results` of them (but one when `n_results <= 0`), or none at all:
      none exactly when a logged source is unhashable or a raising candidate
      comes before the cap. */
  lemma SearchIsCappedPrefix(ready: bool, ranked: Option<seq<Hit>>, nResults: int, f: Filter, k: Option<int>)
    requires ready && ranked.Some?
    ensures var fetched := Take(ranked.value, QuerySize(nResults, k));
      var hits := SearchResult(ready, ranked, nResults, f, k);
      (hits == [] || hits == Take(Accepted(fetched, f), Max(nResults, 1)))
      && (!SourcesUnhashable(fetched) && AllParse(fetched) ==> hits == Take(Accepted(fetched, f), Max(nResults, 1)))
      && (SourcesUnhashable(fetched) || RaisesBeforeCap(fetched, f, nResults, []) ==> hits == [])
      && (!SourcesUnhashable(fetched) && !RaisesBeforeCap(fetched, f, nResults, []) ==>
            hits == Take(Accepted(fetched, f), Max(nResults, 1)))
  {
    ScanTakesAccepted(Take(ranked.value, QuerySize(nResults, k)), f, nResults, []);
  }

  /** One candidate whose `source` is a list makes `search` return `[]`, even
      without filters and although its labels parse. */
  lemma ListSourceEmptiesSearch()
    ensures var h := Hit("t", 0.1, map["source" := List([])]);
      Accepted([h], Filter(None, None)) == [h]
      && SearchResult(true, Some([h]), 3, Filter(None, None), None) == []
  {
  }

  /** Every hit passes both filters and comes from the fetched candidates. */
  lemma SearchHitsPass(ready: bool, ranked: Option<seq<Hit>>, nResults: int, f: Filter, k: Option<int>)
    requires ready && ranked.Some?
    ensures var hits := SearchResult(ready, ranked, nResults, f, k);
      |hits| <= Max(nResults, 1)
      && forall i :: 0 <= i < |hits| ==>
        Passes(f, hits[i]) && hits[i] in Take(ranked.value, QuerySize(nResults, k))
  {
    SearchIsCappedPrefix(ready, ranked, nResults, f, k);
    var fetched := Take(ranked.value, QuerySize(nResults, k));
    var hits := SearchResult(ready, ranked, nResults, f, k);
    var acc := Accepted(fetched, f);
    AcceptedPass(fetched, f);
    if hits != [] {
      forall i | 0 <= i < |hits| ensures Passes(f, hits[i]) && hits[i] in fetched {
        assert hits[i] == acc[i];
      }
    }
  }

  /** A non-empty `allowed_sources` admits only hits whose source it lists. */
  lemma SourceFilterHolds(f: Filter, h: Hit)
    requires Passes(f, h) && f.allowedSources.Some? && f.allowedSources.value != []
    ensures "source" in h.metadata && h.metadata["source"].Str?
    ensures h.metadata["source"].s in f.allowedSources.value
  {
  }

  /** A non-empty `required_labels` admits only hits sharing one of its labels. */
  lemma LabelFilterHolds(f: Filter, h: Hit)
    requires Passes(f, h) && f.requiredLabels.Some? && f.requiredLabels.value != []
    ensures exists l :: l in f.requiredLabels.value && l in ParseLabels(LabelText(h.metadata).GetOr(""))
  {
  }

  /** Neither `None` nor `[]` restricts: without filters every candidate is accepted. */
  lemma {:induction false} NoFilterAcceptsAll(cands: seq<Hit>, f: Filter)
    requires f.allowedSources.None? || f.allowedSources.value == []
    requires f.requiredLabels.None? || f.requiredLabels.value == []
    ensures Accepted(cands, f) == cands
    decreases |cands|
  {
    if cands != [] {
      NoFilterAcceptsAll(cands[1..], f);
      assert Passes(f, cands[0]);
      HeadTail(cands);
    }
  }

  /** The filter loop of `search` over the fetched candidates: `[]` when a
      candidate's labels raise, otherwise the hits kept up to the cap. */
  method FilterHits(fetched: seq<Hit>, f: Filter, nResults: int) returns (hits: seq<Hit>)
    ensures hits == Scan(fetched, f, nResults, []).GetOr([])
  {
    hits := [];
    var i := 0;
    while i < |fetched|
      invariant 0 <= i <= |fetched|
      invariant |hits| < Max(nResults, 1)
      invariant Scan(fetched, f, nResults, []) == Scan(fetched[i..], f, nResults, hits)
    {
      var c := fetched[i];
      ScanAt(fetched, i, f, nResults, hits);
      var verdict := VerdictOf(f, c);
      if verdict == Raises {
        return [];
      }
      if verdict == Skips {
        i := i + 1;
        continue;
      }
      hits := hits + [c];
      if |hits| >= nResults {
        return;
      }
      i := i + 1;
    }
  }

  // ---------------------------------------------------------- the database

  /** `VectorDatabase`: the collection (absent when the client failed to
      start) and the records it holds, in insertion order. */
  class VectorDatabase {
    var ready: bool
    var entries: seq<Entry>

    /** The constructor; `ready` is whether the store client could be opened. */
    constructor(ready: bool)
      ensures this.ready == ready && entries == []
    {
      this.ready := ready;
      entries := [];
    }

    /** `add_documents`. `accepted` stands for the embedder and the store
        accepting the batch; the store also refuses ids or metadata whose
        count differs from the texts'. On success the batch is appended
        with default ids and normalised metadata. */
    method AddDocuments(texts: seq<string>, metadatas: Option<seq<Meta>>, ids: Option<seq<string>>, accepted: bool)
      returns (ok: bool)
      modifies this
      ensures ready == old(ready)
      ensures var idList := ids.GetOr(DefaultIds(|texts|));
        var metaList := if metadatas.None? then seq(|texts|, _ => DefaultMeta)
          else seq(|metadatas.value|, i requires 0 <= i < |metadatas.value| => NormaliseMeta(metadatas.value[i]));
        (ok <==> old(ready) && accepted && |idList| == |texts| && |metaList| == |texts|)
        && (ok ==> entries == old(entries) + Records(idList, texts, metaList))
        && (!ok ==> entries == old(entries))
    {
      if !ready {
        return false;
      }
      if !accepted {
        return false;
      }
      var idList := if ids.None? then DefaultIds(|texts|) else ids.value;
      var metaList: seq<Meta>;
      if metadatas.None? {
        metaList := seq(|texts|, _ => DefaultMeta);
      } else {
        metaList := NormaliseAll(metadatas.value);
      }
      if |idList| != |texts| || |metaList| != |texts| {
        return false;
      }
      entries := entries + Records(idList, texts, metaList);
      ok := true;
    }

    /** `search`. `ranked` is the store's ranking of its records by distance
        to the query (`None` when embedding or querying raises). */
    method Search(nResults: int, f: Filter, k: Option<int>, ranked: Option<seq<Hit>>) returns (hits: seq<Hit>)
      ensures hits == SearchResult(ready, ranked, nResults, f, k)
    {
      if !ready || ranked.None? {
        return [];
      }
      var fetched := Take(ranked.value, QuerySize(nResults, k));
      if SourcesUnhashable(fetched) {
        return [];
      }
      hits := FilterHits(fetched, f, nResults);
    }
  }
}
