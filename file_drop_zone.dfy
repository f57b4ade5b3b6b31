/**
 * The upload widget (src/components/FileDropZone.tsx). `processFiles` walks the
 * selected files in order; each one is either accepted as a new pending entry
 * or turned into an error line. Reading a file and generating an id are I/O and
 * randomness, so the read results and the ids are given per input file.
 */
module FileDropZone {
  import opened Wrappers
  import opened Types
  import opened FileValidation

  /** How many characters of the content the preview keeps. */
  const PreviewLength: nat := 500

  /** `content.substring(0, 500) + (content.length > 500 ? '...' : '')`. */
  function Preview(content: string): (p: string)
    ensures |p| <= PreviewLength + 3
    ensures |content| <= PreviewLength ==> p == content
    ensures |content| > PreviewLength ==> |p| == PreviewLength + 3 && p[PreviewLength..] == "..."
    ensures var n := if |content| < PreviewLength then |content| else PreviewLength;
      n <= |p| && p[..n] == content[..n]
  {
    if |content| > PreviewLength then content[..PreviewLength] + "..." else content
  }

  /** The record built for an accepted file (src/components/FileDropZone.tsx:30-40). */
  function NewUpload(id: string, file: FileInfo, content: string): (u: UploadedFile)
    ensures u.status == Pending && u.progress == 0
    ensures u.name == file.name && u.size == file.size && u.mimeType == file.mimeType
    ensures u.content == content && u.preview == Preview(content)
    ensures u.error.None? && u.downloadUrl.None?
  {
    UploadedFile(id, file, file.name, file.size, file.mimeType, content, Preview(content),
                 Pending, 0, None, None)
  }

  /** What one input file turns into. */
  datatype Intake = Accepted(upload: UploadedFile) | Rejected(message: string)

  /** One iteration of the loop: validate, then read, then build the record. */
  function IntakeOne(file: FileInfo, read: Option<string>, id: string, formatSize: nat -> string): (r: Intake)
    ensures r.Accepted? <==> ValidateFile(file.size, file.mimeType, formatSize).valid && read.Some?
    ensures !ValidateFile(file.size, file.mimeType, formatSize).valid ==>
      r == Rejected(file.name + ": " + ValidateFile(file.size, file.mimeType, formatSize).error.value)
    ensures ValidateFile(file.size, file.mimeType, formatSize).valid && read.None? ==>
      r == Rejected(file.name + ": Failed to read file content")
    ensures r.Accepted? ==> r.upload == NewUpload(id, file, read.value)
  {
    var validation := ValidateFile(file.size, file.mimeType, formatSize);
    if !validation.valid then Rejected(file.name + ": " + validation.error.value)
    else match read
      case None => Rejected(file.name + ": Failed to read file content")
      case Some(content) => Accepted(NewUpload(id, file, content))
  }

  /** The outcome of every input file, in input order. */
  function Intakes(files: seq<FileInfo>, contents: seq<Option<string>>, ids: seq<string>,
                   formatSize: nat -> string): (r: seq<Intake>)
    requires |contents| == |files| && |ids| == |files|
    ensures |r| == |files|
    ensures forall i :: 0 <= i < |files| ==> r[i] == IntakeOne(files[i], contents[i], ids[i], formatSize)
  {
    seq(|files|, i requires 0 <= i < |files| => IntakeOne(files[i], contents[i], ids[i], formatSize))
  }

  /** The accepted records, in input order. */
  function AcceptedOf(xs: seq<Intake>): seq<UploadedFile>
  {
    if xs == [] then []
    else AcceptedOf(xs[..|xs| - 1]) + (if xs[|xs| - 1].Accepted? then [xs[|xs| - 1].upload] else [])
  }

  /** The error lines, in input order. */
  function RejectedOf(xs: seq<Intake>): seq<string>
  {
    if xs == [] then []
    else RejectedOf(xs[..|xs| - 1]) + (if xs[|xs| - 1].Rejected? then [xs[|xs| - 1].message] else [])
  }

  /** Every input file yields exactly one outcome: a record or an error line. */
  lemma {:induction false} OneOutcomePerFile(xs: seq<Intake>)
    ensures |AcceptedOf(xs)| + |RejectedOf(xs)| == |xs|
  {
    if xs != [] {
      OneOutcomePerFile(xs[..|xs| - 1]);
    }
  }

  /** Accepted records are new pending entries with progress 0 and a bounded preview. */
  lemma {:induction false} AcceptedArePending(xs: seq<Intake>)
    requires forall i :: 0 <= i < |xs| && xs[i].Accepted? ==>
      xs[i].upload.status == Pending && xs[i].upload.progress == 0
      && xs[i].upload.preview == Preview(xs[i].upload.content)
    ensures forall k :: 0 <= k < |AcceptedOf(xs)| ==>
      AcceptedOf(xs)[k].status == Pending && AcceptedOf(xs)[k].progress == 0
      && |AcceptedOf(xs)[k].preview| <= PreviewLength + 3
  {
    if xs != [] {
      AcceptedArePending(xs[..|xs| - 1]);
    }
  }

  /**
   * Every record `processFiles` accepts is a new pending entry with progress 0,
   * holding the content that was read and a bounded preview of it.
   */
  lemma AcceptedUploadsArePending(files: seq<FileInfo>, contents: seq<Option<string>>, ids: seq<string>,
                                  formatSize: nat -> string)
    requires |contents| == |files| && |ids| == |files|
    ensures var accepted := AcceptedOf(Intakes(files, contents, ids, formatSize));
      forall k :: 0 <= k < |accepted| ==>
        accepted[k].status == Pending && accepted[k].progress == 0
        && |accepted[k].preview| <= PreviewLength + 3
  {
    AcceptedArePending(Intakes(files, contents, ids, formatSize));
  }

  /** When every file passes validation and is read, all are accepted and there are no errors. */
  lemma {:induction false} AllAccepted(xs: seq<Intake>)
    requires forall i :: 0 <= i < |xs| ==> xs[i].Accepted?
    ensures |AcceptedOf(xs)| == |xs| && RejectedOf(xs) == []
  {
    if xs != [] {
      AllAccepted(xs[..|xs| - 1]);
    }
  }

  /**
   * The `for` loop of `processFiles`: the accepted records and the error lines,
   * both in input order.
   */
  method CollectUploads(files: seq<FileInfo>, contents: seq<Option<string>>, ids: seq<string>,
                        formatSize: nat -> string)
    returns (validFiles: seq<UploadedFile>, newErrors: seq<string>)
    requires |contents| == |files| && |ids| == |files|
    ensures validFiles == AcceptedOf(Intakes(files, contents, ids, formatSize))
    ensures newErrors == RejectedOf(Intakes(files, contents, ids, formatSize))
    ensures |validFiles| + |newErrors| == |files|
  {
    ghost var xs := Intakes(files, contents, ids, formatSize);
    validFiles, newErrors := [], [];
    var i := 0;
    while i < |files|
      invariant 0 <= i <= |files|
      invariant validFiles == AcceptedOf(xs[..i])
      invariant newErrors == RejectedOf(xs[..i])
    {
      assert xs[..i + 1][..i] == xs[..i];
      var file := files[i];
      var validation := ValidateFile(file.size, file.mimeType, formatSize);
      if !validation.valid {
        newErrors := newErrors + [file.name + ": " + validation.error.value];
      } else {
        match contents[i]
        case Some(content) =>
          validFiles := validFiles + [NewUpload(ids[i], file, content)];
        case None =>
          newErrors := newErrors + [file.name + ": Failed to read file content"];
      }
      i := i + 1;
    }
    assert xs[..|files|] == xs;
    OneOutcomePerFile(xs);
  }

  /** The widget's own state: the error list it shows and the drag highlight. */
  class DropZone {
    var errors: seq<string>
    var dragActive: bool
    const disabled: bool

    constructor (disabled: bool)
      ensures this.disabled == disabled && errors == [] && !dragActive
    {
      this.disabled := disabled;
      errors := [];
      dragActive := false;
    }

    /**
     * `processFiles`: replaces the error list with this call's errors and hands
     * the accepted records to `onFilesAdded` once, only when there are any
     * (`added` is that call's argument, `None` when it is not made).
     */
    method ProcessFiles(files: seq<FileInfo>, contents: seq<Option<string>>, ids: seq<string>,
                        formatSize: nat -> string)
      returns (added: Option<seq<UploadedFile>>)
      requires |contents| == |files| && |ids| == |files|
      modifies this`errors
      ensures errors == RejectedOf(Intakes(files, contents, ids, formatSize))
      ensures var accepted := AcceptedOf(Intakes(files, contents, ids, formatSize));
        added == if |accepted| > 0 then Some(accepted) else None
    {
      var validFiles, newErrors := CollectUploads(files, contents, ids, formatSize);
      errors := newErrors;
      if |validFiles| > 0 {
        added := Some(validFiles);
      } else {
        added := None;
      }
    }

    /** `handleDrop`: clears the highlight; does nothing more when disabled or nothing was dropped. */
    method HandleDrop(files: seq<FileInfo>, contents: seq<Option<string>>, ids: seq<string>,
                      formatSize: nat -> string)
      returns (added: Option<seq<UploadedFile>>)
      requires |contents| == |files| && |ids| == |files|
      modifies this`errors, this`dragActive
      ensures !dragActive
      ensures disabled || |files| == 0 ==> errors == old(errors) && added.None?
      ensures !disabled && |files| > 0 ==>
        var accepted := AcceptedOf(Intakes(files, contents, ids, formatSize));
        errors == RejectedOf(Intakes(files, contents, ids, formatSize))
        && added == if |accepted| > 0 then Some(accepted) else None
    {
      dragActive := false;
      added := None;
      if disabled {
        return;
      }
      if |files| > 0 {
        added := ProcessFiles(files, contents, ids, formatSize);
      }
    }

    /** `handleFileSelect`: the same guards as a drop, without the highlight. */
    method HandleFileSelect(files: seq<FileInfo>, contents: seq<Option<string>>, ids: seq<string>,
                            formatSize: nat -> string)
      returns (added: Option<seq<UploadedFile>>)
      requires |contents| == |files| && |ids| == |files|
      modifies this`errors
      ensures disabled || |files| == 0 ==> errors == old(errors) && added.None?
      ensures !disabled && |files| > 0 ==>
        var accepted := AcceptedOf(Intakes(files, contents, ids, formatSize));
        errors == RejectedOf(Intakes(files, contents, ids, formatSize))
        && added == if |accepted| > 0 then Some(accepted) else None
    {
      added := None;
      if disabled {
        return;
      }
      if |files| > 0 {
        added := ProcessFiles(files, contents, ids, formatSize);
      }
    }
  }
}
