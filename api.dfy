/**
 * The HTTP API's in-memory document registry `documents_store` (upload
 * entry, delete, label and status updates, clear), the derivation of the
 * source filter from requested document ids, and the summary-type mapping.
 *
 * File I/O, hashing and the document loader are not modelled: an upload
 * receives the content hash as text and the outcome of loading the file.
 * Calls into the vector store that can fail receive their outcome as a flag.
 */
module Api {
  import opened Common
  import opened Text

  /** One registry entry: `{"id", "filename", "size", "chunks", "labels", "is_active"}`. */
  datatype DocInfo = DocInfo(id: string, filename: string, size: nat, chunks: nat, labels: seq<string>, isActive: bool)

  /** A response: the success body's message, or an HTTP error with its detail. */
  datatype Response = Success(message: string) | HttpError(status: int, detail: string)

  /** What loading the uploaded file gave: the loaded value's length, or the error raised. */
  datatype Loaded = LoadedText(length: nat) | LoadFailed(error: string)

  /** A 404 raised inside the handlers' `try` is caught by their generic
      `except` and re-raised as a 500 whose detail is the 404's text. */
  const NotFound := HttpError(500, "404: Document not found")

  // ---------------------------------------------------------------- upload

  /** `f"{file_hash}_{file.filename}"`. */
  function DocId(fileHash: string, filename: string): string {
    fileHash + "_" + filename
  }

  /** The labels form field split on commas, `[]` when absent or empty. */
  function LabelList(labels: Option<string>): (r: seq<string>)
    ensures labels.None? || labels.value == [] <==> r == []
    ensures labels.Some? && labels.value != [] ==> r == Split(labels.value, ',')
  {
    if labels.None? || labels.value == [] then [] else Split(labels.value, ',')
  }

  /** The `labels` metadata stored with the chunks: the list joined back. */
  function LabelsMetadata(labels: Option<string>): string {
    var list := LabelList(labels);
    if list != [] then Join(list, ',') else ""
  }

  /** The stored `labels` metadata is the form value itself, or `""` without one. */
  lemma LabelsMetadataIsFormValue(labels: Option<string>)
    ensures LabelsMetadata(labels) == if labels.None? then "" else labels.value
  {
    if labels.Some? && labels.value != [] {
      JoinSplit(labels.value, ',');
    }
  }

  /** `f"{doc_id}_{i}"` for each chunk. */
  function ChunkIds(docId: string, n: nat): (r: seq<string>)
    ensures |r| == n && forall i :: 0 <= i < n ==> r[i] == docId + "_" + NatToString(i)
  {
    seq(n, i requires 0 <= i < n => docId + "_" + NatToString(i))
  }

  /** The chunk ids are pairwise distinct. */
  lemma ChunkIdsDistinct(docId: string, n: nat)
    ensures forall i, j :: 0 <= i < j < n ==> ChunkIds(docId, n)[i] != ChunkIds(docId, n)[j]
  {
    var ids := ChunkIds(docId, n);
    forall i, j | 0 <= i < j < n ensures ids[i] != ids[j] {
      NatToStringInjective(i, j);
      assert ids[i][|docId| + 1..] == NatToString(i);
      assert ids[j][|docId| + 1..] == NatToString(j);
    }
  }

  // ------------------------------------------------------ the source filter

  /** The filenames of the requested ids that are registered, in request order. */
  function Filenames(store: map<string, DocInfo>, ids: seq<string>): (r: seq<string>)
    ensures |r| <= |ids|
    ensures forall f :: f in r ==> exists id :: id in ids && id in store && store[id].filename == f
    ensures forall id :: id in ids && id in store ==> store[id].filename in r
  {
    if ids == [] then []
    else
      var rest := Filenames(store, ids[1..]);
      assert forall id :: id in ids[1..] ==> id in ids;
      if ids[0] in store then [store[ids[0]].filename] + rest else rest
  }

  /** Looking up a request in two parts gives the two parts' filenames in turn. */
  lemma {:induction false} FilenamesConcat(store: map<string, DocInfo>, a: seq<string>, b: seq<string>)
    ensures Filenames(store, a + b) == Filenames(store, a) + Filenames(store, b)
    decreases |a|
  {
    if a != [] {
      ConcatTail(a, b);
      FilenamesConcat(store, a[1..], b);
      if a[0] in store {
        Assoc([store[a[0]].filename], Filenames(store, a[1..]), Filenames(store, b));
      }
    } else {
      assert a + b == b;
    }
  }

  /** `allowed_sources`: `None` unless some ids were requested. */
  function AllowedSources(store: map<string, DocInfo>, documentIds: Option<seq<string>>): (r: Option<seq<string>>)
    ensures r.None? <==> documentIds.None? || documentIds.value == []
    ensures r.Some? ==> r.value == Filenames(store, documentIds.value)
  {
    if documentIds.None? || documentIds.value == [] then None
    else Some(Filenames(store, documentIds.value))
  }

  /** When every requested id is registered, the filter lists their filenames
      one for one, in request order. */
  lemma {:induction false} AllKnownInOrder(store: map<string, DocInfo>, ids: seq<string>)
    requires forall i :: 0 <= i < |ids| ==> ids[i] in store
    ensures |Filenames(store, ids)| == |ids|
    ensures forall i :: 0 <= i < |ids| ==> Filenames(store, ids)[i] == store[ids[i]].filename
    decreases |ids|
  {
    if ids != [] {
      var tail := ids[1..];
      assert forall i :: 0 <= i < |tail| ==> tail[i] == ids[i + 1];
      AllKnownInOrder(store, tail);
      var r := Filenames(store, ids);
      assert r == [store[ids[0]].filename] + Filenames(store, tail);
      forall i | 0 <= i < |ids| ensures r[i] == store[ids[i]].filename {
        if i > 0 {
          assert r[i] == Filenames(store, tail)[i - 1];
        }
      }
    }
  }

  /** When no requested id is registered the filter is `[]`, which the vector
      store treats as no restriction at all. */
  lemma {:induction false} AllUnknownEmpty(store: map<string, DocInfo>, ids: seq<string>)
    requires forall i :: 0 <= i < |ids| ==> ids[i] !in store
    ensures Filenames(store, ids) == []
    decreases |ids|
  {
    if ids != [] {
      AllUnknownEmpty(store, ids[1..]);
    }
  }

  // ---------------------------------------------------------- summary type

  /** The mapping of request summary types to the summariser's keys. */
  function SummaryType(requested: string): (r: string)
    ensures r in {"general", "detailed", "bullet"}
    ensures r == "detailed" <==> requested == "detaylı"
    ensures r == "bullet" <==> requested == "madde"
  {
    if requested == "genel" then "general"
    else if requested == "detaylı" then "detailed"
    else if requested == "madde" then "bullet"
    else "general"
  }

  // --------------------------------------------------------------- registry

  /** `documents_store`, keyed by document id. */
  class DocumentRegistry {
    var store: map<string, DocInfo>

    constructor()
      ensures store == map[]
    {
      store := map[];
    }

    /** The registry part of `upload_document`: one entry under the new id,
        active, with the split labels. A failing load leaves the store as it was. */
    method Upload(fileHash: string, filename: string, size: nat, labels: Option<string>, loaded: Loaded)
      returns (response: Response)
      modifies this
      ensures loaded.LoadFailed? ==>
        store == old(store) && response == HttpError(500, "Upload failed: " + loaded.error)
      ensures loaded.LoadedText? ==>
        store == old(store)[DocId(fileHash, filename) :=
          DocInfo(DocId(fileHash, filename), filename, size, loaded.length, LabelList(labels), true)]
        && response == Success(filename + " başarıyla yüklendi")
    {
      if loaded.LoadFailed? {
        return HttpError(500, "Upload failed: " + loaded.error);
      }
      var docId := DocId(fileHash, filename);
      var labelList := LabelList(labels);
      store := store[docId := DocInfo(docId, filename, size, loaded.length, labelList, true)];
      response := Success(filename + " başarıyla yüklendi");
    }

    /** `delete_document`. `removedFromStore` is whether the vector store's
        delete succeeds; an unknown id or a failing delete leaves the registry
        as it was. */
    method Delete(docId: string, removedFromStore: bool, storeError: string) returns (response: Response)
      modifies this
      ensures docId !in old(store) ==> store == old(store) && response == NotFound
      ensures docId in old(store) && !removedFromStore ==> store == old(store) && response == HttpError(500, storeError)
      ensures docId in old(store) && removedFromStore ==>
        store == old(store) - {docId} && response == Success(old(store)[docId].filename + " silindi")
    {
      if docId !in store {
        return NotFound;
      }
      if !removedFromStore {
        return HttpError(500, storeError);
      }
      var info := store[docId];
      store := store - {docId};
      response := Success(info.filename + " silindi");
    }

    /** `update_labels`: replaces the labels of one entry. */
    method UpdateLabels(docId: string, labels: seq<string>) returns (response: Response)
      modifies this
      ensures docId !in old(store) ==> store == old(store) && response == NotFound
      ensures docId in old(store) ==>
        store == old(store)[docId := old(store)[docId].(labels := labels)] && response == Success("Labels updated")
    {
      if docId !in store {
        return NotFound;
      }
      store := store[docId := store[docId].(labels := labels)];
      response := Success("Labels updated");
    }

    /** `update_status`: sets the active flag of one entry. */
    method UpdateStatus(docId: string, isActive: bool) returns (response: Response)
      modifies this
      ensures docId !in old(store) ==> store == old(store) && response == NotFound
      ensures docId in old(store) ==>
        store == old(store)[docId := old(store)[docId].(isActive := isActive)]
        && response == Success(if isActive then "Document activated" else "Document deactivated")
    {
      if docId !in store {
        return NotFound;
      }
      store := store[docId := store[docId].(isActive := isActive)];
      response := Success(if isActive then "Document activated" else "Document deactivated");
    }

    /** `clear_database` as written: the wrapper has no `clear_database`
        method, so the call raises before the registry is cleared. */
    method ClearDatabase() returns (response: Response)
      modifies this
      ensures store == old(store)
      ensures response == HttpError(500, "'VectorDatabase' object has no attribute 'clear_database'")
    {
      response := HttpError(500, "'VectorDatabase' object has no attribute 'clear_database'");
    }

    /** `clear_database` as intended: the store is emptied. `cleared` is
        whether clearing the vector store succeeds. */
    method ClearDatabaseIntended(cleared: bool, storeError: string) returns (response: Response)
      modifies this
      ensures cleared ==> store == map[] && response == Success("Database cleared")
      ensures !cleared ==> store == old(store) && response == HttpError(500, storeError)
    {
      if !cleared {
        return HttpError(500, storeError);
      }
      store := map[];
      response := Success("Database cleared");
    }
  }

  /** Clearing as written, after one upload, fails and leaves the uploaded
      entry in the registry. */
  method ClearAsWrittenLeavesEntry() returns (left: map<string, DocInfo>, response: Response)
    ensures "h_a.txt" in left && response.HttpError? && response.status == 500
  {
    var registry := new DocumentRegistry();
    var uploaded := registry.Upload("h", "a.txt", 1, None, LoadedText(1));
    assert DocId("h", "a.txt") == "h_a.txt";
    response := registry.ClearDatabase();
    left := registry.store;
  }
}
