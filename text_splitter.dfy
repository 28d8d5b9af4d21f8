/**
 * Document ingestion: the dispatch of `DocumentLoader.load_document` on the
 * file suffix, and `TextSplitter.split_text`, which cuts a text into windows
 * that end at the last space of the window and start `overlap` characters
 * before the previous cut.
 *
 * The source loop is not guaranteed to terminate. Its meaning is given by
 * fuel-bounded definitions: `Reaches(.., fuel)` says that `fuel` iterations
 * reach the end of the text, and `WindowsWithin(.., fuel)` lists the windows
 * they visit. The method modelling the loop requires that some fuel suffices. `SplitTextHangs` exhibits an input on which no fuel does, and
 * `SplitTextProgressing` is the corrected splitter that always advances.
 */
module DocumentLoader {
  import opened Common
  import opened Text

  // --------------------------------------------------------- load_document

  /** The formats with a loader. */
  datatype Format = Pdf | Txt | Docx | Pptx

  /** The lower-cased suffix that selects each loader. */
  function Extension(f: Format): string {
    match f
    case Pdf => ".pdf"
    case Txt => ".txt"
    case Docx => ".docx"
    case Pptx => ".pptx"
  }

  /** The last component of a `/`-separated path. */
  function FileName(path: string): (r: string)
    ensures '/' !in r
  {
    var i := LastIndexOf(path, '/');
    path[i + 1..]
  }

  /** `pathlib.PurePath.suffix`: from the last `.` of the file name, provided
      that dot is neither the first nor the last character of the name. */
  function Suffix(path: string): (r: string)
    ensures r == [] || (|r| >= 2 && r[0] == '.' && '.' !in r[1..] && '/' !in r)
  {
    var name := FileName(path);
    var i := LastIndexOf(name, '.');
    if 0 < i < |name| - 1 then name[i..] else []
  }

  /** The loader registered for a lower-cased suffix. */
  function FormatOf(suffix: string): (r: Option<Format>)
    ensures forall f :: r == Some(f) <==> suffix == Extension(f)
  {
    if suffix == ".pdf" then Some(Pdf)
    else if suffix == ".txt" then Some(Txt)
    else if suffix == ".docx" then Some(Docx)
    else if suffix == ".pptx" then Some(Pptx)
    else None
  }

  /** Which loader `load_document` calls; `None` is the unsupported-format path. */
  function LoaderFor(path: string): (r: Option<Format>)
    ensures forall f :: r == Some(f) <==> Lower(Suffix(path)) == Extension(f)
  {
    FormatOf(Lower(Suffix(path)))
  }

  /** The suffix of `dir + stem + "." + e` is `"." + e`, for a non-empty stem (which
      may itself hold dots) and an extension without dots or slashes. */
  lemma SuffixOfName(dir: string, stem: string, e: string)
    requires dir == [] || dir[|dir| - 1] == '/'
    requires stem != [] && '/' !in stem
    requires e != [] && '.' !in e && '/' !in e
    ensures Suffix(dir + stem + "." + e) == "." + e
  {
    var name := stem + "." + e;
    assert dir + stem + "." + e == dir + name;
    FileNameAfterDir(dir, name);
    DotOfName(stem, e);
  }

  /** The file name of `dir + name` is `name`. */
  lemma FileNameAfterDir(dir: string, name: string)
    requires dir == [] || dir[|dir| - 1] == '/'
    requires '/' !in name
    ensures FileName(dir + name) == name
  {
    if dir != [] {
      var d := dir[..|dir| - 1];
      assert dir + name == d + ['/'] + name;
      LastIndexOfJoined(d, name, '/');
    }
  }

  /** In `stem + "." + e` the last dot is the one before `e`. */
  lemma DotOfName(stem: string, e: string)
    requires '.' !in e
    ensures LastIndexOf(stem + "." + e, '.') == |stem|
    ensures (stem + "." + e)[|stem|..] == "." + e
  {
    assert stem + "." + e == stem + ['.'] + e;
    LastIndexOfJoined(stem, e, '.');
    DropStem(stem, e);
  }

  lemma DropStem(stem: string, e: string)
    ensures (stem + ['.'] + e)[|stem|..] == ['.'] + e
  {
    var u := stem + ['.'] + e;
    assert u[|stem|..] == u[|stem|..][..1] + u[|stem|..][1..];
  }

  /** `s + [c] + t` with `c` not in `t`: the last `c` is the one joined in. */
  lemma LastIndexOfJoined(s: string, t: string, c: char)
    requires c !in t
    ensures s + [c] + t == (s + [c]) + t
    ensures LastIndexOf(s + [c] + t, c) == |s|
    ensures (s + [c] + t)[|s| + 1..] == t
  {
    var u := s + [c] + t;
    assert u[|s|] == c;
    assert u[|s| + 1..] == t;
  }

  /** The dispatch ignores ASCII case: `Report.PDF` goes to the PDF loader. */
  lemma LoaderForExtension(dir: string, stem: string, e: string, f: Format)
    requires dir == [] || dir[|dir| - 1] == '/'
    requires stem != [] && '/' !in stem
    requires e != [] && '.' !in e && '/' !in e
    requires Lower("." + e) == Extension(f)
    ensures LoaderFor(dir + stem + "." + e) == Some(f)
  {
    SuffixOfName(dir, stem, e);
  }

  // ------------------------------------------------------------ TextSplitter

  /** `TextSplitter(chunk_size, overlap)`. */
  datatype TextSplitter = TextSplitter(chunkSize: int, overlap: int)

  /** `TextSplitter()` with its default arguments. */
  const DefaultSplitter := TextSplitter(1000, 200)

  /** The window and overlap sizes in force for one text. */
  datatype Sizes = Sizes(chunk: int, overlap: int)

  /** Long texts get larger fixed windows; other texts use the splitter's own. */
  function DynamicSizes(sp: TextSplitter, total: int): (z: Sizes)
    ensures total <= 60000 ==> z == Sizes(sp.chunkSize, sp.overlap)
    ensures total > 60000 ==> 0 < z.overlap < z.chunk
  {
    if total > 200000 then Sizes(2200, 260)
    else if total > 120000 then Sizes(1800, 230)
    else if total > 60000 then Sizes(1400, 210)
    else Sizes(sp.chunkSize, sp.overlap)
  }

  /** Between tiers, a longer text never gets a smaller window or overlap. */
  lemma TiersGrow(sp: TextSplitter, t1: int, t2: int)
    requires 60000 < t1 <= t2
    ensures DynamicSizes(sp, t1).chunk <= DynamicSizes(sp, t2).chunk
    ensures DynamicSizes(sp, t1).overlap <= DynamicSizes(sp, t2).overlap
  {
  }

  /** Where the window starting at `start` is cut: at the last space of the
      window if the window does not reach the end and that space lies after
      `start`, otherwise `chunk` characters on. */
  function Cut(text: string, z: Sizes, start: int): (end: int)
    ensures end == start + z.chunk
      || (start < end && 0 <= end < SliceIndex(start + z.chunk, |text|) && text[end] == ' ')
  {
    var end := start + z.chunk;
    if end < |text| then
      var r := RFind(text, ' ', start, end);
      if r == -1 || r <= start then end else r
    else end
  }

  /** From a start inside the text, the cut is the last space after `start`
      within the window, and the cut is hard exactly when there is none. */
  lemma CutFacts(text: string, z: Sizes, start: int)
    requires 0 <= start && 0 <= z.chunk
    ensures Cut(text, z, start) <= start + z.chunk
    ensures start + z.chunk < |text| ==>
      (Cut(text, z, start) < start + z.chunk <==> exists k :: start < k < start + z.chunk && text[k] == ' ')
    ensures start + z.chunk < |text| ==>
      forall k :: Cut(text, z, start) < k < start + z.chunk ==> text[k] != ' '
  {
    var end := start + z.chunk;
    if end < |text| {
      LastInFacts(text, ' ', start, end);
      var r := RFind(text, ' ', start, end);
      if exists k :: start < k < end && text[k] == ' ' {
        var k :| start < k < end && text[k] == ' ';
        LastInFinds(text, ' ', start, end, k);
      }
    }
  }

  /** The loop's computation of the window end, which `Cut` specifies. */
  method WindowEnd(text: string, z: Sizes, start: int) returns (end: int)
    ensures end == Cut(text, z, start)
  {
    end := start + z.chunk;
    if end < |text| {
      end := RFind(text, ' ', start, end);
      if end == -1 || end <= start {
        end := start + z.chunk;
      }
    }
  }

  /** The chunk of the window `[start, end)`: Python's `text[start:end].strip()`. */
  function Chunk(text: string, start: int, end: int): string {
    var a := SliceIndex(start, |text|);
    var b := SliceIndex(end, |text|);
    if a < b then Strip(text[a..b]) else []
  }

  /** `Chunk` is Python's `text[start:end].strip()`. */
  lemma ChunkIsStrippedSlice(text: string, start: int, end: int)
    ensures Chunk(text, start, end) == Strip(PySlice(text, start, end))
    ensures 0 <= start <= end <= |text| ==> Chunk(text, start, end) == Strip(text[start..end])
  {
    if SliceIndex(start, |text|) >= SliceIndex(end, |text|) {
      assert PySlice(text, start, end) == [];
      TrimEmpty([], Py);
    }
  }

  /** A window the loop visits: it starts at `start` and is cut at `end`. */
  datatype Window = Window(start: int, end: int)

  /** What one window contributes: its chunk, unless that strips to nothing. */
  function Emit(text: string, w: Window): seq<string> {
    var c := Chunk(text, w.start, w.end);
    if c == [] then [] else [c]
  }

  /** The chunks of a sequence of windows, in order. */
  function ChunksOf(text: string, ws: seq<Window>): seq<string>
    decreases |ws|
  {
    if ws == [] then [] else Emit(text, ws[0]) + ChunksOf(text, ws[1..])
  }

  lemma {:induction false} ChunksOfConcat(text: string, a: seq<Window>, b: seq<Window>)
    ensures ChunksOf(text, a + b) == ChunksOf(text, a) + ChunksOf(text, b)
    decreases |a|
  {
    if a == [] {
      assert a + b == b;
    } else {
      assert (a + b)[1..] == a[1..] + b;
      ChunksOfConcat(text, a[1..], b);
    }
  }

  lemma ChunksOfSnoc(text: string, ws: seq<Window>, w: Window)
    ensures ChunksOf(text, ws + [w]) == ChunksOf(text, ws) + Emit(text, w)
  {
    ChunksOfConcat(text, ws, [w]);
    assert ChunksOf(text, [w]) == Emit(text, w) + ChunksOf(text, []);
  }

  /** The source loop, started at `start`, reaches the end of the text within `fuel` iterations. */
  predicate Reaches(text: string, z: Sizes, start: int, fuel: nat)
    decreases fuel
  {
    start >= |text| || (fuel > 0 && Reaches(text, z, Cut(text, z, start) - z.overlap, fuel - 1))
  }

  /** The windows the source loop visits from `start` in at most `fuel` iterations. */
  function WindowsWithin(text: string, z: Sizes, start: int, fuel: nat): seq<Window>
    decreases fuel
  {
    if start >= |text| || fuel == 0 then []
    else
      var end := Cut(text, z, start);
      [Window(start, end)] + WindowsWithin(text, z, end - z.overlap, fuel - 1)
  }

  /** The source loop stops on this splitter and text. */
  ghost predicate Terminates(sp: TextSplitter, text: string) {
    exists fuel: nat :: Reaches(text, DynamicSizes(sp, |text|), 0, fuel)
  }

  /** Once the loop stops, more fuel visits no further windows. */
  lemma {:induction false} WindowsUnique(text: string, z: Sizes, start: int, f1: nat, f2: nat)
    requires Reaches(text, z, start, f1) && Reaches(text, z, start, f2)
    ensures WindowsWithin(text, z, start, f1) == WindowsWithin(text, z, start, f2)
    decreases f1
  {
    if start < |text| {
      WindowsUnique(text, z, Cut(text, z, start) - z.overlap, f1 - 1, f2 - 1);
    }
  }

  /** Every visited window is cut by `Cut`. */
  lemma {:induction false} WindowsCut(text: string, z: Sizes, start: int, fuel: nat)
    ensures forall i :: 0 <= i < |WindowsWithin(text, z, start, fuel)| ==>
      WindowsWithin(text, z, start, fuel)[i].end == Cut(text, z, WindowsWithin(text, z, start, fuel)[i].start)
    decreases fuel
  {
    if start < |text| && fuel > 0 {
      var end := Cut(text, z, start);
      var ws := WindowsWithin(text, z, end - z.overlap, fuel - 1);
      WindowsCut(text, z, end - z.overlap, fuel - 1);
      var all := [Window(start, end)] + ws;
      assert forall i :: 0 < i < |all| ==> all[i] == ws[i - 1];
    }
  }

  lemma SliceBoundsDiff(i: int, j: int, n: nat)
    requires i <= j
    ensures SliceIndex(j, n) - SliceIndex(i, n) <= j - i
  {
  }

  /** Every chunk is trimmed, and no longer than the window when the window
      size is not negative. */
  lemma ChunkShape(text: string, z: Sizes, start: int)
    ensures IsTrimmed(Chunk(text, start, Cut(text, z, start)), Py)
    ensures 0 <= z.chunk ==> |Chunk(text, start, Cut(text, z, start))| <= z.chunk
  {
    var end := Cut(text, z, start);
    var a := SliceIndex(start, |text|);
    var b := SliceIndex(end, |text|);
    if a < b {
      TrimTrimmed(text[a..b], Py);
      if 0 <= z.chunk {
        SliceBoundsDiff(start, start + z.chunk, |text|);
      }
    }
  }

  /** Shape of a result: every chunk non-empty, trimmed and no longer than the window. */
  predicate WellShaped(chunks: seq<string>, z: Sizes) {
    forall i :: 0 <= i < |chunks| ==>
      chunks[i] != [] && IsTrimmed(chunks[i], Py) && (0 <= z.chunk ==> |chunks[i]| <= z.chunk)
  }

  /** The chunks of windows cut by `Cut` are well shaped. */
  lemma {:induction false} CutChunksShaped(text: string, z: Sizes, ws: seq<Window>)
    requires forall i :: 0 <= i < |ws| ==> ws[i].end == Cut(text, z, ws[i].start)
    ensures WellShaped(ChunksOf(text, ws), z)
    decreases |ws|
  {
    if ws != [] {
      CutChunksShaped(text, z, ws[1..]);
      ChunkShape(text, z, ws[0].start);
      var rest := ChunksOf(text, ws[1..]);
      var all := Emit(text, ws[0]) + rest;
      if Emit(text, ws[0]) != [] {
        assert forall i :: 1 <= i < |all| ==> all[i] == rest[i - 1];
      } else {
        assert all == rest;
      }
    }
  }

  /** `split_text`, as the loop it is. The precondition is that the loop stops. */
  method SplitText(sp: TextSplitter, text: string) returns (chunks: seq<string>)
    requires Terminates(sp, text)
    ensures forall fuel: nat :: Reaches(text, DynamicSizes(sp, |text|), 0, fuel) ==>
      chunks == ChunksOf(text, WindowsWithin(text, DynamicSizes(sp, |text|), 0, fuel))
    ensures WellShaped(chunks, DynamicSizes(sp, |text|))
    ensures text == [] ==> chunks == []
  {
    var total := |text|;
    var z := DynamicSizes(sp, total);
    ghost var fuel: nat :| Reaches(text, z, 0, fuel);
    ghost var left := fuel;
    chunks := [];
    var start := 0;
    while start < total
      invariant Reaches(text, z, start, left)
      invariant ChunksOf(text, WindowsWithin(text, z, 0, fuel)) == chunks + ChunksOf(text, WindowsWithin(text, z, start, left))
      decreases left
    {
      var end := WindowEnd(text, z, start);
      ghost var emitted := chunks;
      var chunk := Chunk(text, start, end);
      if chunk != [] {
        chunks := chunks + [chunk];
      }
      assert chunks == emitted + Emit(text, Window(start, end));
      ghost var prev, prevLeft := start, left;
      start := end - z.overlap;
      left := left - 1;
      SplitStep(text, z, prev, end, start, prevLeft, left, emitted);
    }
    SplitTextResult(text, z, fuel);
  }

  /** One iteration of the source loop from a start inside the text, with
      `end` the cut and `next` the following start: after the chunks `done`,
      it emits the chunk of the window `[start, end)`, then goes on from
      `next` with one iteration fewer. */
  lemma SplitStep(text: string, z: Sizes, start: int, end: int, next: int, left: nat, nextLeft: nat,
                  done: seq<string>)
    requires start < |text| && Reaches(text, z, start, left)
    requires end == Cut(text, z, start) && next == end - z.overlap && nextLeft == left - 1
    ensures Reaches(text, z, next, nextLeft)
    ensures done + ChunksOf(text, WindowsWithin(text, z, start, left)) ==
      (done + Emit(text, Window(start, end))) + ChunksOf(text, WindowsWithin(text, z, next, nextLeft))
  {
    var ws := WindowsWithin(text, z, start, left);
    assert ws[1..] == WindowsWithin(text, z, next, nextLeft);
  }

  /** The chunks of the windows visited within any bound that suffices are
      those of the windows visited within `fuel`, and they are well shaped. */
  lemma SplitTextResult(text: string, z: Sizes, fuel: nat)
    requires Reaches(text, z, 0, fuel)
    ensures forall f: nat :: Reaches(text, z, 0, f) ==>
      ChunksOf(text, WindowsWithin(text, z, 0, fuel)) == ChunksOf(text, WindowsWithin(text, z, 0, f))
    ensures WellShaped(ChunksOf(text, WindowsWithin(text, z, 0, fuel)), z)
  {
    forall f: nat | Reaches(text, z, 0, f)
      ensures ChunksOf(text, WindowsWithin(text, z, 0, fuel)) == ChunksOf(text, WindowsWithin(text, z, 0, f))
    {
      WindowsUnique(text, z, 0, fuel, f);
    }
    WindowsCut(text, z, 0, fuel);
    CutChunksShaped(text, z, WindowsWithin(text, z, 0, fuel));
  }

  // ------------------------------------------------------------- the hang

  /** With the default splitter, a text of 1102 to 60000 characters whose only
      space among its first 1101 characters is at index 301 never finishes:
      the windows starting at 0 and at 101 are both cut at 301, and each cut
      restarts at 301 - 200 = 101. */
  lemma SplitTextHangs(text: string)
    requires 1102 <= |text| <= 60000
    requires text[301] == ' ' && forall k :: 0 <= k < 1101 && k != 301 ==> text[k] != ' '
    ensures !Terminates(DefaultSplitter, text)
  {
    var z := DynamicSizes(DefaultSplitter, |text|);
    assert z == Sizes(1000, 200);
    CutAt301(text, 0);
    forall fuel: nat ensures !Reaches(text, z, 0, fuel) {
      if fuel > 0 {
        StuckAt101(text, fuel - 1);
      }
    }
  }

  lemma CutAt301(text: string, start: int)
    requires 1102 <= |text|
    requires text[301] == ' ' && forall k :: 0 <= k < 1101 && k != 301 ==> text[k] != ' '
    requires start == 0 || start == 101
    ensures Cut(text, Sizes(1000, 200), start) == 301
  {
    LastInFinds(text, ' ', start, start + 1000, 301);
  }

  lemma {:induction false} StuckAt101(text: string, fuel: nat)
    requires 1102 <= |text|
    requires text[301] == ' ' && forall k :: 0 <= k < 1101 && k != 301 ==> text[k] != ' '
    ensures !Reaches(text, Sizes(1000, 200), 101, fuel)
    decreases fuel
  {
    CutAt301(text, 101);
    if fuel > 0 {
      StuckAt101(text, fuel - 1);
    }
  }

  /** One concrete hanging input: 1102 characters, one space at index 301. */
  lemma SplitTextHangsOnExample()
    ensures !Terminates(DefaultSplitter, seq(1102, i => if i == 301 then ' ' else 'x'))
  {
    SplitTextHangs(seq(1102, i => if i == 301 then ' ' else 'x'));
  }

  // ------------------------------------------------- the corrected splitter

  /** The start after the window `[start, end)` when every window must begin
      after the previous one: `overlap` before the cut, but at least `start + 1`. */
  function NextStart(z: Sizes, start: int, end: int): (r: int)
    ensures r > start
    ensures r >= end - z.overlap
    ensures end - z.overlap > start ==> r == end - z.overlap
  {
    Max(end - z.overlap, start + 1)
  }

  /** The windows of the corrected splitter from `start`. */
  function ProgressingWindows(text: string, z: Sizes, start: int): seq<Window>
    decreases |text| - start
  {
    if start >= |text| then []
    else
      var end := Cut(text, z, start);
      [Window(start, end)] + ProgressingWindows(text, z, NextStart(z, start, end))
  }

  lemma {:induction false} ProgressingWindowsCut(text: string, z: Sizes, start: int)
    ensures forall i :: 0 <= i < |ProgressingWindows(text, z, start)| ==>
      ProgressingWindows(text, z, start)[i].end == Cut(text, z, ProgressingWindows(text, z, start)[i].start)
    decreases |text| - start
  {
    if start < |text| {
      var end := Cut(text, z, start);
      var ws := ProgressingWindows(text, z, NextStart(z, start, end));
      ProgressingWindowsCut(text, z, NextStart(z, start, end));
      var all := [Window(start, end)] + ws;
      assert forall i :: 0 < i < |all| ==> all[i] == ws[i - 1];
    }
  }

  /** `split_text` with every window forced past the previous start: it stops
      on every input and returns well-shaped chunks. */
  method SplitTextProgressing(sp: TextSplitter, text: string) returns (chunks: seq<string>)
    ensures chunks == ChunksOf(text, ProgressingWindows(text, DynamicSizes(sp, |text|), 0))
    ensures WellShaped(chunks, DynamicSizes(sp, |text|))
    ensures text == [] ==> chunks == []
  {
    var total := |text|;
    var z := DynamicSizes(sp, total);
    ghost var all := ProgressingWindows(text, z, 0);
    ghost var seen: seq<Window> := [];
    chunks := [];
    var start := 0;
    while start < total
      invariant seen + ProgressingWindows(text, z, start) == all
      invariant chunks == ChunksOf(text, seen)
      decreases total - start
    {
      var end := WindowEnd(text, z, start);
      ghost var rest := ProgressingWindows(text, z, NextStart(z, start, end));
      assert ProgressingWindows(text, z, start) == [Window(start, end)] + rest;
      Assoc(seen, [Window(start, end)], rest);
      ChunksOfSnoc(text, seen, Window(start, end));
      var chunk := Chunk(text, start, end);
      if chunk != [] {
        chunks := chunks + [chunk];
      }
      seen := seen + [Window(start, end)];
      start := NextStart(z, start, end);
    }
    assert seen == all;
    ProgressingWindowsCut(text, z, 0);
    CutChunksShaped(text, z, all);
  }

  /** Where every window of the source advances by itself, the source stops
      within `|text| - start + 1` iterations and visits exactly the corrected
      splitter's windows. */
  lemma {:induction false} ProgressingAgrees(text: string, z: Sizes, start: int, fuel: nat)
    requires forall s :: start <= s < |text| ==> Cut(text, z, s) - z.overlap > s
    requires fuel > |text| - start
    ensures Reaches(text, z, start, fuel)
    ensures WindowsWithin(text, z, start, fuel) == ProgressingWindows(text, z, start)
    decreases |text| - start
  {
    if start < |text| {
      var end := Cut(text, z, start);
      assert NextStart(z, start, end) == end - z.overlap;
      ProgressingAgrees(text, z, end - z.overlap, fuel - 1);
    }
  }

  /** Without overlap the source always stops, on the corrected windows. */
  lemma TerminatesWithoutOverlap(sp: TextSplitter, text: string)
    requires DynamicSizes(sp, |text|).overlap <= 0 < DynamicSizes(sp, |text|).chunk
    ensures Terminates(sp, text)
    ensures Reaches(text, DynamicSizes(sp, |text|), 0, |text| + 1)
    ensures WindowsWithin(text, DynamicSizes(sp, |text|), 0, |text| + 1)
      == ProgressingWindows(text, DynamicSizes(sp, |text|), 0)
  {
    ProgressingAgrees(text, DynamicSizes(sp, |text|), 0, |text| + 1);
  }

  /** On a text without spaces every cut is a hard one, so a window longer
      than the overlap always advances. */
  lemma TerminatesWithoutSpaces(sp: TextSplitter, text: string)
    requires forall k :: 0 <= k < |text| ==> text[k] != ' '
    requires DynamicSizes(sp, |text|).overlap < DynamicSizes(sp, |text|).chunk
    ensures Terminates(sp, text)
    ensures Reaches(text, DynamicSizes(sp, |text|), 0, |text| + 1)
    ensures WindowsWithin(text, DynamicSizes(sp, |text|), 0, |text| + 1)
      == ProgressingWindows(text, DynamicSizes(sp, |text|), 0)
  {
    ProgressingAgrees(text, DynamicSizes(sp, |text|), 0, |text| + 1);
  }
}
