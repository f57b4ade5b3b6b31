/**
 * Upload validation (src/utils/fileUtils.ts:1-24): a 10 MiB size cap, checked
 * first, then a whitelist of two MIME types. `formatFileSize` is floating-point
 * formatting and is given as the function `formatSize`.
 */
module FileValidation {
  import opened Wrappers

  /** 10 * 1024 * 1024 bytes. */
  const MaxFileSize: nat := 10 * 1024 * 1024

  /** The keys of `SUPPORTED_TYPES`. */
  const SupportedTypes: seq<string> := ["text/html", "text/plain"]

  /** `{ valid, error? }` as `validateFile` returns it. */
  datatype Validation = Validation(valid: bool, error: Option<string>)

  /** The size message ends with the formatted size of the file. */
  function SizeError(size: nat, formatSize: nat -> string): (m: string)
    ensures |m| > |formatSize(size)| && m[|m| - |formatSize(size)|..] == formatSize(size)
  {
    "File size exceeds 10MB limit. Current size: " + formatSize(size)
  }

  /** The type message names the rejected type right after its fixed opening. */
  function TypeError(mimeType: string): (m: string)
    ensures |m| > 23 + |mimeType| && m[23..23 + |mimeType|] == mimeType
  {
    "Unsupported file type: " + mimeType + ". Only HTML and TXT files are supported."
  }

  /** `validateFile`. */
  function ValidateFile(size: nat, mimeType: string, formatSize: nat -> string): (v: Validation)
    ensures v.valid <==> size <= MaxFileSize && mimeType in SupportedTypes
    ensures v.valid <==> v.error.None?
    ensures size > MaxFileSize ==> v.error == Some(SizeError(size, formatSize))
    ensures size <= MaxFileSize && mimeType !in SupportedTypes ==> v.error == Some(TypeError(mimeType))
  {
    if size > MaxFileSize then Validation(false, Some(SizeError(size, formatSize)))
    else if mimeType !in SupportedTypes then Validation(false, Some(TypeError(mimeType)))
    else Validation(true, None)
  }

  /** The limit is 10485760 bytes and inclusive: a file of exactly that size passes the size check. */
  lemma SizeLimitInclusive(mimeType: string, formatSize: nat -> string)
    requires mimeType in SupportedTypes
    ensures MaxFileSize == 10485760
    ensures ValidateFile(10485760, mimeType, formatSize).valid
    ensures !ValidateFile(10485761, mimeType, formatSize).valid
  {
  }

  lemma MessagesDiffer(size: nat, formatSize: nat -> string, mimeType: string)
    ensures SizeError(size, formatSize) != TypeError(mimeType)
  {
    var sizeHead := "File size exceeds 10MB limit. Current size: ";
    var typeHead := "Unsupported file type: ";
    assert sizeHead[0] == 'F';
    assert typeHead[0] == 'U';
    assert SizeError(size, formatSize)[0] == 'F';
    assert TypeError(mimeType)[0] == 'U';
  }

  /** An oversized file of an unsupported type reports the size error, not the type error. */
  lemma SizeCheckedFirst(size: nat, mimeType: string, formatSize: nat -> string)
    requires size > MaxFileSize && mimeType !in SupportedTypes
    ensures ValidateFile(size, mimeType, formatSize).error == Some(SizeError(size, formatSize))
    ensures ValidateFile(size, mimeType, formatSize).error != Some(TypeError(mimeType))
  {
    MessagesDiffer(size, formatSize, mimeType);
  }
}
