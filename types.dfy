/**
 * The records the application passes around: the browser `File` as the upload
 * widget hands it over, and `UploadedFile`, one entry of the conversion list
 * (src/types/index.ts).
 */
module Types {
  import opened Wrappers

  /** Conversion status of one entry of the list. */
  datatype Status = Pending | Converting | Completed | Error

  /** The parts of a browser `File` the application reads. */
  datatype FileInfo = FileInfo(name: string, size: nat, mimeType: string)

  /** One entry of the conversion list. `error` and `downloadUrl` are optional fields. */
  datatype UploadedFile = UploadedFile(
    id: string,
    file: FileInfo,
    name: string,
    size: nat,
    mimeType: string,
    content: string,
    preview: string,
    status: Status,
    progress: int,
    error: Option<string>,
    downloadUrl: Option<string>)

  /** A thrown value: an `Error` object carries a message, anything else does not. */
  datatype Thrown = ErrorObject(message: string) | NonError

  /** Does `needle` occur in `s` starting at index `i`? */
  predicate OccursAt(s: string, needle: string, i: int)
  {
    0 <= i <= |s| - |needle| && s[i..i + |needle|] == needle
  }

  /** Does `needle` occur as a contiguous piece of `s`? (`String.prototype.includes`) */
  predicate Contains(s: string, needle: string)
  {
    exists i :: 0 <= i <= |s| - |needle| && OccursAt(s, needle, i)
  }

  /** A piece placed between two others occurs right after the first. */
  lemma OccursBetween(a: string, n: string, b: string)
    ensures OccursAt(a + n + b, n, |a|)
    ensures Contains(a + n + b, n)
  {
    var s := a + n + b;
    assert s[|a|..|a| + |n|] == n;
    assert 0 <= |a| <= |s| - |n| && OccursAt(s, n, |a|);
  }

  /** Is `c` one of the characters `String.prototype.trim` removes? */
  predicate IsTrimmedSpace(c: char)
  {
    c == '\t' || c == '\n' || c == '\U{B}' || c == '\U{C}' || c == '\r' || c == ' '
    || c == '\U{A0}' || c == '\U{1680}' || ('\U{2000}' <= c <= '\U{200A}')
    || c == '\U{2028}' || c == '\U{2029}' || c == '\U{202F}' || c == '\U{205F}'
    || c == '\U{3000}' || c == '\U{FEFF}'
  }

  /** `s.trim() === ''`: every character is white space or a line terminator. */
  predicate IsBlank(s: string)
  {
    forall i :: 0 <= i < |s| ==> IsTrimmedSpace(s[i])
  }
}
