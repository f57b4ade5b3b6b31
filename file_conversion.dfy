/**
 * The conversion list kept by the `useFileConversion` hook
 * (src/hooks/useFileConversion.ts). The hook's state is a list of
 * `UploadedFile` entries that its operations replace by list transforms; here it
 * is the field `files` of a class. Calls are strictly sequential. The converter
 * itself is abstract: a `Conversion` says which progress values it reported and
 * whether it produced an object URL or threw.
 */
module FileConversion {
  import opened Wrappers
  import opened Types

  /** What the converter did: an object URL for the produced blob, or a thrown value. */
  datatype ConverterResult = Converted(url: string) | Threw(thrown: Thrown)

  /** One run of the converter: the values it passed to `onProgress`, then its result. */
  datatype Conversion = Conversion(reports: seq<int>, result: ConverterResult)

  /** What one `downloadConvertedFile` call hands to the anchor: the URL and the file name. */
  datatype Download = Download(url: string, fileName: string)

  /** Is there an entry with this id? */
  predicate HasId(files: seq<UploadedFile>, id: string)
  {
    exists i :: 0 <= i < |files| && files[i].id == id
  }

  /** No two entries share an id (ids come from `generateFileId`). */
  predicate UniqueIds(files: seq<UploadedFile>)
  {
    forall i, j :: 0 <= i < j < |files| ==> files[i].id != files[j].id
  }

  /** `files.find(f => f.id === id)`: the first entry with this id. */
  function FindById(files: seq<UploadedFile>, id: string): (r: Option<UploadedFile>)
    ensures r.None? <==> !HasId(files, id)
    ensures r.Some? ==> r.value in files && r.value.id == id
  {
    if files == [] then None
    else if files[0].id == id then Some(files[0])
    else
      assert forall i :: 1 <= i < |files| ==> files[i] == files[1..][i - 1];
      FindById(files[1..], id)
  }

  /** The entry `FindById` returns is the first with that id. */
  lemma {:induction false} FindIsFirst(files: seq<UploadedFile>, id: string, i: nat)
    requires i < |files| && files[i].id == id
    requires forall j :: 0 <= j < i ==> files[j].id != id
    ensures FindById(files, id) == Some(files[i])
  {
    if i > 0 {
      FindIsFirst(files[1..], id, i - 1);
    }
  }

  /** `files.map(f => f.id === id ? g(f) : f)`. */
  function MapById(files: seq<UploadedFile>, id: string, g: UploadedFile -> UploadedFile): (r: seq<UploadedFile>)
    ensures |r| == |files|
    ensures forall i :: 0 <= i < |files| ==> r[i] == if files[i].id == id then g(files[i]) else files[i]
  {
    if files == [] then []
    else [if files[0].id == id then g(files[0]) else files[0]] + MapById(files[1..], id, g)
  }

  /** `prev.filter(f => f.id !== id)`. */
  function WithoutId(files: seq<UploadedFile>, id: string): (r: seq<UploadedFile>)
    ensures forall f :: f in r <==> f in files && f.id != id
    ensures |r| <= |files|
  {
    if files == [] then []
    else (if files[0].id == id then [] else [files[0]]) + WithoutId(files[1..], id)
  }

  /** `{ ...f, progress, ...(status && { status }) }`. */
  function SetProgress(f: UploadedFile, progress: int, status: Option<Status>): UploadedFile
  {
    f.(progress := progress, status := if status.Some? then status.value else f.status)
  }

  /** `updateFileProgress`'s transform of the list. */
  function WithProgress(files: seq<UploadedFile>, id: string, progress: int, status: Option<Status>): (r: seq<UploadedFile>)
    ensures |r| == |files|
    ensures forall i :: 0 <= i < |files| ==> r[i] == if files[i].id == id then SetProgress(files[i], progress, status) else files[i]
  {
    MapById(files, id, f => SetProgress(f, progress, status))
  }

  /** The entry once marked as converting with the given progress. */
  function MarkConverting(f: UploadedFile, progress: int): UploadedFile
  {
    f.(status := Converting, progress := progress)
  }

  /** The message stored on failure: `error instanceof Error ? error.message : 'Conversion failed'`. */
  function FailureMessage(t: Thrown): string
  {
    match t
    case ErrorObject(m) => m
    case NonError => "Conversion failed"
  }

  /** The entry after the converter finished (src/hooks/useFileConversion.ts:51-72). */
  function Finished(f: UploadedFile, result: ConverterResult): (r: UploadedFile)
    ensures result.Converted? ==> r.status == Completed && r.progress == 100 && r.downloadUrl == Some(result.url)
    ensures result.Converted? ==> r.error == f.error
    ensures result.Threw? ==> r.status == Error && r.progress == 0 && r.error == Some(FailureMessage(result.thrown))
    ensures result.Threw? ==> r.downloadUrl == f.downloadUrl
    ensures r.id == f.id && r.name == f.name && r.content == f.content && r.file == f.file
    ensures r.size == f.size && r.mimeType == f.mimeType && r.preview == f.preview
  {
    match result
    case Converted(url) => f.(status := Completed, progress := 100, downloadUrl := Some(url))
    case Threw(t) => f.(status := Error, progress := 0, error := Some(FailureMessage(t)))
  }

  /** Every entry of this id holds the converter's result. */
  function WithResult(files: seq<UploadedFile>, id: string, result: ConverterResult): (r: seq<UploadedFile>)
    ensures |r| == |files|
    ensures forall i :: 0 <= i < |files| ==> r[i] == if files[i].id == id then Finished(files[i], result) else files[i]
  {
    MapById(files, id, f => Finished(f, result))
  }

  /** The list after `convertFile(id)` with the given converter result. */
  function ConvertSpec(files: seq<UploadedFile>, id: string, result: ConverterResult): seq<UploadedFile>
  {
    if HasId(files, id) then WithResult(files, id, result) else files
  }

  /** The last progress value reported, 0 (the value `convertFile` sets first) if none. */
  function LastReport(reports: seq<int>): int
  {
    if reports == [] then 0 else reports[|reports| - 1]
  }

  /** Ids of the pending entries, in list order. */
  function PendingIds(files: seq<UploadedFile>): seq<string>
  {
    if files == [] then []
    else PendingIds(files[..|files| - 1])
         + (if files[|files| - 1].status == Pending then [files[|files| - 1].id] else [])
  }

  /** How many entries before index `i` are pending: the position of entry `i` in `PendingIds`. */
  function PendingBefore(files: seq<UploadedFile>, i: nat): nat
    requires i <= |files|
  {
    |PendingIds(files[..i])|
  }

  /** The list after converting `ids` one at a time, in order, with the matching results. */
  function ConvertAllSpec(files: seq<UploadedFile>, ids: seq<string>, results: seq<ConverterResult>): seq<UploadedFile>
    requires |results| == |ids|
  {
    if ids == [] then files
    else
      var n := |ids| - 1;
      ConvertSpec(ConvertAllSpec(files, ids[..n], results[..n]), ids[n], results[n])
  }

  /** The results of a list of conversions. */
  function Results(conversions: seq<Conversion>): (rs: seq<ConverterResult>)
    ensures |rs| == |conversions|
    ensures forall k :: 0 <= k < |conversions| ==> rs[k] == conversions[k].result
  {
    seq(|conversions|, k requires 0 <= k < |conversions| => conversions[k].result)
  }

  /** `.replace(/\.[^/.]+$/, '')`: the length of the trailing run of characters other than `/` and `.`. */
  function TrailingRun(s: string): (k: nat)
    ensures k <= |s|
    ensures forall j :: |s| - k <= j < |s| ==> s[j] != '/' && s[j] != '.'
    ensures k < |s| ==> s[|s| - k - 1] == '/' || s[|s| - k - 1] == '.'
  {
    if s == [] || s[|s| - 1] == '/' || s[|s| - 1] == '.' then 0
    else 1 + TrailingRun(s[..|s| - 1])
  }

  /** A final extension as the regular expression reads it: one or more characters, none `/` or `.`. */
  predicate IsExtension(e: string)
  {
    |e| > 0 && forall j :: 0 <= j < |e| ==> e[j] != '/' && e[j] != '.'
  }

  /** The file name without its final extension. */
  function StripExtension(name: string): (r: string)
    ensures r <= name
    ensures r == name || (|r| < |name| && name[|r|] == '.' && IsExtension(name[|r| + 1..]))
  {
    var k := TrailingRun(name);
    if 0 < k < |name| && name[|name| - k - 1] == '.' then name[..|name| - k - 1] else name
  }

  /** The extension chosen from the URL: `pdf` iff it contains "pdf". */
  function DownloadExtension(url: string): (ext: string)
    ensures ext == "pdf" <==> Contains(url, "pdf")
    ensures ext == "pdf" || ext == "docx"
  {
    if Contains(url, "pdf") then "pdf" else "docx"
  }

  /** The name the download is saved under. */
  function DownloadFileName(name: string, url: string): (r: string)
    ensures StripExtension(name) <= r
    ensures Contains(url, "pdf") ==> |r| >= 4 && r[|r| - 4..] == ".pdf"
    ensures !Contains(url, "pdf") ==> |r| >= 5 && r[|r| - 5..] == ".docx"
  {
    StripExtension(name) + "." + DownloadExtension(url)
  }

  /** Is an optional URL set and non-empty (a truthy `downloadUrl`)? */
  predicate HasUrl(f: UploadedFile)
  {
    f.downloadUrl.Some? && f.downloadUrl.value != ""
  }

  /** The download an entry offers, if it has a URL. */
  function DownloadOf(f: UploadedFile): Option<Download>
  {
    if HasUrl(f) then Some(Download(f.downloadUrl.value, DownloadFileName(f.name, f.downloadUrl.value)))
    else None
  }

  /** The downloads the given entries offer, in order, skipping those without a URL. */
  function DownloadsOf(fs: seq<UploadedFile>): seq<Download>
  {
    if fs == [] then []
    else DownloadsOf(fs[..|fs| - 1])
         + (if HasUrl(fs[|fs| - 1]) then [DownloadOf(fs[|fs| - 1]).value] else [])
  }

  /** `files.filter(f => f.status === 'completed')`. */
  function CompletedOf(files: seq<UploadedFile>): (r: seq<UploadedFile>)
    ensures forall f :: f in r <==> f in files && f.status == Completed
  {
    if files == [] then []
    else CompletedOf(files[..|files| - 1])
         + (if files[|files| - 1].status == Completed then [files[|files| - 1]] else [])
  }

  /** The URLs `clearAllFiles` revokes: every truthy `downloadUrl`, in list order. */
  function PresentUrls(files: seq<UploadedFile>): seq<string>
  {
    if files == [] then []
    else PresentUrls(files[..|files| - 1])
         + (if HasUrl(files[|files| - 1]) then [files[|files| - 1].downloadUrl.value] else [])
  }

  class FileList {
    var files: seq<UploadedFile>

    constructor ()
      ensures files == []
    {
      files := [];
    }

    /** `addFiles`: the old entries followed by the new ones. */
    method AddFiles(newFiles: seq<UploadedFile>)
      modifies this
      ensures files == old(files) + newFiles
    {
      files := files + newFiles;
    }

    /** `removeFile`. */
    method RemoveFile(id: string)
      modifies this
      ensures files == WithoutId(old(files), id)
    {
      files := WithoutId(files, id);
    }

    /** `updateFileProgress`: `status` is `None` when the caller passes no status. */
    method UpdateFileProgress(id: string, progress: int, status: Option<Status>)
      modifies this
      ensures files == WithProgress(old(files), id, progress, status)
    {
      files := WithProgress(files, id, progress, status);
    }

    /**
     * `convertFile`. With no entry of this id nothing changes. Otherwise the entry
     * is set to converting with progress 0, each progress report of the converter
     * is applied in turn (`during` is the list just before the converter returns),
     * and then the result is stored.
     */
    method ConvertFile(id: string, conversion: Conversion) returns (ghost during: seq<UploadedFile>)
      modifies this
      ensures !HasId(old(files), id) ==> files == old(files)
      ensures HasId(old(files), id) ==> MarkedConverting(old(files), id, LastReport(conversion.reports), during)
      ensures files == ConvertSpec(old(files), id, conversion.result)
    {
      during := files;
      var file := FindById(files, id);
      if file.None? {
        return;
      }
      ghost var before := files;
      UpdateFileProgress(id, 0, Some(Converting));
      StartConverting(before, id);
      var k := 0;
      while k < |conversion.reports|
        invariant 0 <= k <= |conversion.reports|
        invariant MarkedConverting(before, id, LastReport(conversion.reports[..k]), files)
      {
        assert conversion.reports[..k + 1][..k] == conversion.reports[..k];
        ReportProgress(before, id, LastReport(conversion.reports[..k]), conversion.reports[k], files);
        UpdateFileProgress(id, conversion.reports[k], None);
        k := k + 1;
      }
      assert conversion.reports[..k] == conversion.reports;
      during := files;
      FinishConverting(before, id, LastReport(conversion.reports), files, conversion.result);
      files := WithResult(files, id, conversion.result);
    }

    /**
     * `convertAllFiles`: converts, one at a time and in list order, exactly the
     * entries that were pending when it was called; `conversions` holds what the
     * converter does for each of them.
     */
    method ConvertAllFiles(conversions: seq<Conversion>)
      requires |conversions| == |PendingIds(files)|
      modifies this
      ensures files == ConvertAllSpec(old(files), PendingIds(old(files)), Results(conversions))
    {
      var pendingIds := PendingIds(files);
      ghost var results := Results(conversions);
      ghost var start := files;
      var k := 0;
      while k < |pendingIds|
        invariant 0 <= k <= |pendingIds|
        invariant files == ConvertAllSpec(start, pendingIds[..k], results[..k])
      {
        ConvertAllSnoc(start, pendingIds, results, k);
        ghost var during := ConvertFile(pendingIds[k], conversions[k]);
        k := k + 1;
      }
      assert pendingIds[..k] == pendingIds && results[..k] == results;
    }

    /**
     * `downloadConvertedFile`: nothing when there is no entry with this id or the
     * first one has no URL; otherwise its URL and the derived file name.
     */
    function DownloadConvertedFile(id: string): (d: Option<Download>)
      reads this
      ensures d.None? <==> !HasId(files, id) || !HasUrl(FindById(files, id).value)
      ensures d.Some? ==>
        var f := FindById(files, id).value;
        d.value.url == f.downloadUrl.value
        && d.value.fileName == StripExtension(f.name) + "." + DownloadExtension(f.downloadUrl.value)
    {
      match FindById(files, id)
      case None => None
      case Some(f) => DownloadOf(f)
    }

    /** `downloadAllCompleted`: one download per completed entry, in list order. */
    method DownloadAllCompleted() returns (downloads: seq<Download>)
      ensures |downloads| <= |CompletedOf(files)|
      ensures UniqueIds(files) ==> downloads == DownloadsOf(CompletedOf(files))
    {
      var completed := CompletedOf(files);
      downloads := [];
      var k := 0;
      while k < |completed|
        invariant 0 <= k <= |completed|
        invariant |downloads| <= k
        invariant UniqueIds(files) ==> downloads == DownloadsOf(completed[..k])
      {
        DownloadsOfSnoc(completed, k);
        var d := DownloadConvertedFile(completed[k].id);
        if UniqueIds(files) {
          FindUnique(files, completed[k]);
          assert d == DownloadOf(completed[k]);
        }
        if d.Some? {
          downloads := downloads + [d.value];
        }
        k := k + 1;
      }
      assert completed[..k] == completed;
    }

    /** `clearAllFiles`: revokes every present URL, in list order, and empties the list. */
    method ClearAllFiles() returns (revoked: seq<string>)
      modifies this
      ensures files == []
      ensures revoked == PresentUrls(old(files))
    {
      revoked := [];
      var k := 0;
      while k < |files|
        invariant 0 <= k <= |files|
        invariant revoked == PresentUrls(files[..k])
      {
        assert files[..k + 1][..k] == files[..k];
        if HasUrl(files[k]) {
          revoked := revoked + [files[k].downloadUrl.value];
        }
        k := k + 1;
      }
      assert files[..k] == files;
      files := [];
    }
  }

  /** `files` is `before` with every entry of this id converting at the given progress. */
  predicate MarkedConverting(before: seq<UploadedFile>, id: string, progress: int, files: seq<UploadedFile>)
  {
    |files| == |before|
    && forall i :: 0 <= i < |files| ==>
         files[i] == if before[i].id == id then MarkConverting(before[i], progress) else before[i]
  }

  /** Setting converting with progress 0 marks the entries of this id. */
  lemma StartConverting(before: seq<UploadedFile>, id: string)
    ensures MarkedConverting(before, id, 0, WithProgress(before, id, 0, Some(Converting)))
  {
  }

  /** A progress report moves the marked entries to the reported value. */
  lemma ReportProgress(before: seq<UploadedFile>, id: string, progress: int, report: int, files: seq<UploadedFile>)
    requires MarkedConverting(before, id, progress, files)
    ensures MarkedConverting(before, id, report, WithProgress(files, id, report, None))
  {
    var next := WithProgress(files, id, report, None);
    forall i | 0 <= i < |files|
      ensures next[i] == if before[i].id == id then MarkConverting(before[i], report) else before[i]
    {
      assert files[i].id == before[i].id;
    }
  }

  /** Storing the result over the marked entries gives the list `convertFile` promises. */
  lemma FinishConverting(before: seq<UploadedFile>, id: string, progress: int, files: seq<UploadedFile>,
                         result: ConverterResult)
    requires HasId(before, id)
    requires MarkedConverting(before, id, progress, files)
    ensures WithResult(files, id, result) == ConvertSpec(before, id, result)
  {
    var done := WithResult(files, id, result);
    var spec := ConvertSpec(before, id, result);
    forall i | 0 <= i < |files| ensures done[i] == spec[i] {
      assert files[i].id == before[i].id;
    }
  }

  /** Converting one more id extends the batch by one `convertFile` step. */
  lemma ConvertAllSnoc(files: seq<UploadedFile>, ids: seq<string>, results: seq<ConverterResult>, k: nat)
    requires |results| == |ids| && k < |ids|
    ensures ConvertAllSpec(files, ids[..k + 1], results[..k + 1])
         == ConvertSpec(ConvertAllSpec(files, ids[..k], results[..k]), ids[k], results[k])
  {
    assert ids[..k + 1][..k] == ids[..k];
    assert results[..k + 1][..k] == results[..k];
  }

  /** The downloads of one more entry: those before it, then its own if it has a URL. */
  lemma DownloadsOfSnoc(fs: seq<UploadedFile>, k: nat)
    requires k < |fs|
    ensures DownloadsOf(fs[..k + 1])
         == DownloadsOf(fs[..k]) + (if HasUrl(fs[k]) then [DownloadOf(fs[k]).value] else [])
  {
    assert fs[..k + 1][..k] == fs[..k];
  }

  /** With unique ids, looking up an entry's id finds that entry. */
  lemma FindUnique(files: seq<UploadedFile>, f: UploadedFile)
    requires UniqueIds(files) && f in files
    ensures FindById(files, f.id) == Some(f)
  {
    var i :| 0 <= i < |files| && files[i] == f;
    FindIsFirst(files, f.id, i);
  }

  /** The ids of the pending entries of a prefix come first among those of the whole list. */
  lemma {:induction false} PendingIdsPrefix(files: seq<UploadedFile>, i: nat)
    requires i <= |files|
    ensures PendingIds(files[..i]) <= PendingIds(files)
  {
    if i < |files| {
      var n := |files| - 1;
      assert files[..n][..i] == files[..i];
      PendingIdsPrefix(files[..n], i);
    } else {
      assert files[..i] == files;
    }
  }

  /** A pending entry's id sits at its position among the pending entries. */
  lemma PendingAt(files: seq<UploadedFile>, i: nat)
    requires i < |files| && files[i].status == Pending
    ensures PendingBefore(files, i) < |PendingIds(files)|
    ensures PendingIds(files)[PendingBefore(files, i)] == files[i].id
  {
    assert files[..i + 1][..i] == files[..i];
    PendingIdsPrefix(files, i + 1);
  }

  /** Every position among the pending ids comes from a pending entry. */
  lemma {:induction false} PendingSource(files: seq<UploadedFile>, j: nat) returns (i: nat)
    requires j < |PendingIds(files)|
    ensures i < |files| && files[i].status == Pending && PendingBefore(files, i) == j
  {
    var n := |files| - 1;
    if j < |PendingIds(files[..n])| {
      i := PendingSource(files[..n], j);
      assert files[..n][..i] == files[..i];
    } else {
      i := n;
    }
  }

  /** `state` is the list after the first `j` conversions of `convertAllFiles`, entry by entry. */
  predicate ConvertedUpTo(files: seq<UploadedFile>, results: seq<ConverterResult>, j: nat, state: seq<UploadedFile>)
    requires j <= |results|
  {
    |state| == |files|
    && forall i :: 0 <= i < |files| ==>
         state[i] == if files[i].status == Pending && PendingBefore(files, i) < j
                     then Finished(files[i], results[PendingBefore(files, i)])
                     else files[i]
  }

  /** One more conversion finishes exactly the next pending entry. */
  lemma ConvertNextPending(files: seq<UploadedFile>, results: seq<ConverterResult>, j: nat, prev: seq<UploadedFile>)
    requires UniqueIds(files)
    requires |results| == |PendingIds(files)| && j < |results|
    requires ConvertedUpTo(files, results, j, prev)
    ensures ConvertedUpTo(files, results, j + 1, ConvertSpec(prev, PendingIds(files)[j], results[j]))
  {
    var id := PendingIds(files)[j];
    var source := PendingSource(files, j);
    PendingAt(files, source);
    assert prev[source].id == id;
    assert HasId(prev, id);
    var after := ConvertSpec(prev, id, results[j]);
    forall i | 0 <= i < |files|
      ensures after[i] == if files[i].status == Pending && PendingBefore(files, i) < j + 1
                          then Finished(files[i], results[PendingBefore(files, i)])
                          else files[i]
    {
      assert prev[i].id == files[i].id;
      if i != source {
        assert files[i].id != files[source].id;
        if files[i].status == Pending {
          PendingAt(files, i);
        }
      }
    }
  }

  /** The list after the first `j` conversions of `convertAllFiles`. */
  lemma {:induction false} ConvertAllStep(files: seq<UploadedFile>, results: seq<ConverterResult>, j: nat)
    requires UniqueIds(files)
    requires |results| == |PendingIds(files)| && j <= |results|
    ensures ConvertedUpTo(files, results, j, ConvertAllSpec(files, PendingIds(files)[..j], results[..j]))
  {
    var ids := PendingIds(files);
    if j > 0 {
      ConvertAllStep(files, results, j - 1);
      assert ids[..j][..j - 1] == ids[..j - 1];
      assert results[..j][..j - 1] == results[..j - 1];
      ConvertNextPending(files, results, j - 1, ConvertAllSpec(files, ids[..j - 1], results[..j - 1]));
    }
  }

  /**
   * `convertAllFiles` with unique ids: every entry pending at the call is finished
   * with the result of its own conversion (the k-th pending entry with the k-th),
   * every other entry is untouched, and no entry is left pending.
   */
  lemma ConvertAllConvertsPending(files: seq<UploadedFile>, results: seq<ConverterResult>)
    requires UniqueIds(files)
    requires |results| == |PendingIds(files)|
    ensures forall i :: 0 <= i < |files| && files[i].status == Pending ==> PendingBefore(files, i) < |results|
    ensures var after := ConvertAllSpec(files, PendingIds(files), results);
      |after| == |files|
      && (forall i :: 0 <= i < |files| ==>
            after[i] == if files[i].status == Pending
                        then Finished(files[i], results[PendingBefore(files, i)])
                        else files[i])
      && forall i :: 0 <= i < |after| ==> after[i].status != Pending
  {
    var ids := PendingIds(files);
    ConvertAllStep(files, results, |ids|);
    assert ids[..|ids|] == ids && results[..|results|] == results;
    forall i | 0 <= i < |files| && files[i].status == Pending
      ensures PendingBefore(files, i) < |ids|
    {
      PendingAt(files, i);
    }
  }

  /** Stripping removes a final extension: `report.final.html` becomes `report.final`. */
  lemma StripExtensionRemovesExtension(base: string, ext: string)
    requires IsExtension(ext)
    ensures StripExtension(base + "." + ext) == base
  {
    var name := base + "." + ext;
    var k := TrailingRun(name);
    assert forall j :: 0 <= j < |ext| ==> name[|base| + 1 + j] == ext[j];
    assert name[|base|] == '.';
    assert k == |ext|;
    assert name[..|name| - k - 1] == base;
  }

  /** A name without a final extension is left as it is. */
  lemma StripExtensionKeepsOthers(name: string)
    requires forall i :: 0 <= i < |name| && name[i] == '.' ==> !IsExtension(name[i + 1..])
    ensures StripExtension(name) == name
  {
  }

  /** The downloaded name replaces the final extension by the one chosen from the URL. */
  lemma DownloadNameReplacesExtension(base: string, ext: string, url: string)
    requires IsExtension(ext)
    ensures DownloadFileName(base + "." + ext, url) == base + (if Contains(url, "pdf") then ".pdf" else ".docx")
  {
    StripExtensionRemovesExtension(base, ext);
  }

  /** A character of a UUID's textual form: a lowercase hexadecimal digit or a dash. */
  predicate IsUuidChar(c: char)
  {
    '0' <= c <= '9' || 'a' <= c <= 'f' || c == '-'
  }

  /**
   * An object URL is `blob:`, the page origin, `/` and a UUID. The UUID cannot
   * hold `pdf`, so unless the origin does, every download is saved with the
   * `docx` extension, whichever converter produced it.
   */
  lemma BlobUrlNamesDocx(origin: string, uuid: string)
    requires !Contains("blob:" + origin, "pdf")
    requires forall i :: 0 <= i < |uuid| ==> IsUuidChar(uuid[i])
    ensures DownloadExtension("blob:" + origin + "/" + uuid) == "docx"
  {
    var head := "blob:" + origin;
    var url := head + "/" + uuid;
    forall i | 0 <= i <= |url| - 3
      ensures !OccursAt(url, "pdf", i)
    {
      if i + 3 <= |head| {
        assert url[i..i + 3] == head[i..i + 3];
        assert !OccursAt(head, "pdf", i);
      } else if i <= |head| {
        assert url[|head|] == '/';
        assert url[i..i + 3][|head| - i] == '/';
      } else {
        assert url[i] == uuid[i - |head| - 1];
        assert url[i..i + 3][0] != 'p';
      }
    }
  }

  /** Removal works entry by entry: the order of what is kept is unchanged. */
  lemma {:induction false} WithoutIdAppend(a: seq<UploadedFile>, b: seq<UploadedFile>, id: string)
    ensures WithoutId(a + b, id) == WithoutId(a, id) + WithoutId(b, id)
  {
    if a == [] {
      assert a + b == b;
    } else {
      assert a + b == [a[0]] + (a[1..] + b);
      assert (a + b)[1..] == a[1..] + b;
      WithoutIdAppend(a[1..], b, id);
    }
  }

  /** Removing an id no entry has leaves the list as it is. */
  lemma {:induction false} WithoutAbsentId(files: seq<UploadedFile>, id: string)
    requires !HasId(files, id)
    ensures WithoutId(files, id) == files
  {
    if files != [] {
      assert !HasId(files[1..], id) by {
        forall i | 0 <= i < |files[1..]| ensures files[1..][i].id != id {
          assert files[1..][i] == files[i + 1];
        }
      }
      WithoutAbsentId(files[1..], id);
    }
  }

  /** Removing an entry keeps the ids unique. */
  lemma {:induction false} WithoutIdKeepsUnique(files: seq<UploadedFile>, id: string)
    requires UniqueIds(files)
    ensures UniqueIds(WithoutId(files, id))
  {
    if files != [] {
      var rest := WithoutId(files[1..], id);
      WithoutIdKeepsUnique(files[1..], id);
      forall k | 0 <= k < |rest| ensures rest[k].id != files[0].id {
        assert rest[k] in files[1..];
        var m :| 0 <= m < |files[1..]| && files[1..][m] == rest[k];
        assert files[m + 1] == rest[k];
      }
    }
  }

  /** Adding entries with fresh, distinct ids keeps the ids unique. */
  lemma AddFilesKeepsUnique(files: seq<UploadedFile>, newFiles: seq<UploadedFile>)
    requires UniqueIds(files) && UniqueIds(newFiles)
    requires forall i, j :: 0 <= i < |files| && 0 <= j < |newFiles| ==> files[i].id != newFiles[j].id
    ensures UniqueIds(files + newFiles)
  {
  }

  /** A progress update and a conversion keep every id, hence unique ids stay unique. */
  lemma UpdatesKeepIds(files: seq<UploadedFile>, id: string, progress: int, status: Option<Status>, result: ConverterResult)
    requires UniqueIds(files)
    ensures UniqueIds(WithProgress(files, id, progress, status))
    ensures UniqueIds(ConvertSpec(files, id, result))
  {
    var updated := WithProgress(files, id, progress, status);
    assert forall i :: 0 <= i < |files| ==> updated[i].id == files[i].id;
    var converted := ConvertSpec(files, id, result);
    assert forall i :: 0 <= i < |files| ==> converted[i].id == files[i].id;
  }

  /** Converting an id no entry has changes nothing, with or without unique ids. */
  lemma ConvertAbsentId(files: seq<UploadedFile>, id: string, result: ConverterResult)
    requires !HasId(files, id)
    ensures ConvertSpec(files, id, result) == files
  {
  }

  /** Every URL handed out by `downloadAllCompleted` is one that `clearAllFiles` revokes. */
  lemma {:induction false} DownloadedUrlsAreRevoked(files: seq<UploadedFile>)
    ensures forall d :: d in DownloadsOf(CompletedOf(files)) ==> d.url in PresentUrls(files)
  {
    if files != [] {
      var n := |files| - 1;
      DownloadedUrlsAreRevoked(files[..n]);
      var cs := CompletedOf(files[..n]);
      if files[n].status == Completed {
        assert CompletedOf(files) == cs + [files[n]];
        assert (cs + [files[n]])[..|cs|] == cs;
      } else {
        assert CompletedOf(files) == cs;
      }
    }
  }
}
