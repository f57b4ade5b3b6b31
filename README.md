# HTML/TXT to PDF/DOCX converter — a Dafny model of its core

The application takes HTML and plain-text files from a browser drop zone,
validates them (size at most 10 MB, MIME type `text/html` or `text/plain`),
keeps them in a list of uploads with a status (`pending`, `converting`,
`completed`, `error`) and a progress percentage, and converts each file to
PDF (rasterised and paginated onto A4 pages) or to DOCX (one Word paragraph
per non-blank line of text, packaged as an Office Open XML zip). Converted
files can be downloaded one by one or all together, and the list can be
cleared, which revokes the object URLs of the converted blobs.

The model follows the structure of the program:

| file | module | models |
|---|---|---|
| `wrappers.dfy` | `Wrappers` | `Option` and `Result` |
| `types.dfy` | `Types` | the upload record, its status, thrown values, `includes`, `trim` whitespace |
| `file_validation.dfy` | `FileValidation` | `validateFile` with its size limit, type list and messages |
| `file_drop_zone.dfy` | `FileDropZone` | the drop zone: per-file intake, the preview, the error list (class `DropZone`) |
| `xml_escape.dfy` | `XmlEscape` | the five chained `replace` calls that escape text for XML, and their inverse |
| `text_lines.dfy` | `TextLines` | `split('\n')` and the filter that drops blank lines |
| `docx_xml.dfy` | `DocxXml` | `createDocxXml`: the `word/document.xml` text, and a reader that recovers the paragraphs |
| `docx_package.dfy` | `DocxPackage` | `createDocxZip`'s four parts and `convertToDOCX`'s progress and error wrapping |
| `progress.dfy` | `ConversionProgress` | the progress checkpoints both converters report |
| `pdf_conversion.dfy` | `PdfConversion` | `convertToPDF`: container content, page count, the pagination loop, progress, clean-up of the temporary DOM node |
| `file_conversion.dfy` | `FileConversion` | the `useFileConversion` hook as class `FileList`: add, remove, progress updates, single and batch conversion, download names, download all, clear |

Browser services are parameters of the model: the text of an HTML document
with its tags stripped (`stripTags`), the human-readable size
(`formatSize`), the content read from each dropped file, the generated ids,
the rendered canvas, the page size, the fault (if any) each library call
raises, and the object URL a conversion produces.

The DOCX converter splits the extracted text on every single newline and drops
the lines that `trim` to nothing; the lines it keeps are not trimmed. So
`a\nb` and `a\n\nb` both give the paragraphs `a` and `b`
(`TextLines.SingleNewlineSeparates`, `TextLines.BlankLineDropped`).

## Model

| member | source | states |
|---|---|---|
| `FileValidation.ValidateFile` | src/utils/fileUtils.ts:8-24 | a file is valid iff its size is at most `MAX_FILE_SIZE` and its type is one of the two supported types; valid iff no error; an oversized file gets the size message, a supported-size file of another type gets the type message |
| `FileValidation.SizeError` | src/utils/fileUtils.ts:12 | the size message ends with the formatted size of the file |
| `FileValidation.TypeError` | src/utils/fileUtils.ts:19 | the type message names the rejected MIME type right after `Unsupported file type: ` |
| `FileValidation.SizeLimitInclusive` | src/utils/fileUtils.ts:1-14 | the limit is 10485760 bytes and inclusive: exactly 10 MB is accepted, one byte more is rejected |
| `FileValidation.SizeCheckedFirst` | src/utils/fileUtils.ts:9-21 | a file that fails both checks reports the size error, never the type error |
| `FileValidation.MessagesDiffer` | src/utils/fileUtils.ts:12-19 | the size message and the type message can never coincide |
| `FileDropZone.Preview` | src/components/FileDropZone.tsx:37 | the preview is the content itself when at most 500 characters, otherwise its first 500 characters followed by `...` (503 characters); lengths count Unicode characters, not UTF-16 code units |
| `FileDropZone.NewUpload` | src/components/FileDropZone.tsx:30-40 | a new upload is pending with progress 0, copies name, size and type from the file, holds the content and its preview, and has no error and no URL |
| `FileDropZone.IntakeOne` | src/components/FileDropZone.tsx:21-43 | a file is accepted iff it validates and its content could be read; an invalid file yields `name: error`, an unreadable one `name: Failed to read file content`; an accepted one yields the new upload |
| `FileDropZone.OneOutcomePerFile` | src/components/FileDropZone.tsx:19-45 | every file ends up either among the valid files or among the errors |
| `FileDropZone.AcceptedUploadsArePending` | src/components/FileDropZone.tsx:19-41 | every record the intake of a batch accepts is pending with progress 0 and has a preview of at most 503 characters |
| `FileDropZone.AllAccepted` | src/components/FileDropZone.tsx:19-50 | when every file is accepted, all of them are added and no error is recorded |
| `FileDropZone.CollectUploads` | src/components/FileDropZone.tsx:15-46 | the loop collects exactly the accepted uploads and the rejection messages, in file order, one per file |
| `FileDropZone.DropZone.ProcessFiles` | src/components/FileDropZone.tsx:15-51 | the error list is replaced by this batch's rejections; the accepted uploads are handed on only if there is at least one |
| `FileDropZone.DropZone.HandleDrop` | src/components/FileDropZone.tsx:63-74 | a drop ends the drag highlight; when disabled or empty it changes nothing else, otherwise it processes the dropped files |
| `FileDropZone.DropZone.HandleFileSelect` | src/components/FileDropZone.tsx:76-85 | when disabled or with no file chosen nothing happens, otherwise the chosen files are processed |
| `XmlEscape.Entity` | src/utils/conversionUtils.ts:100-105 | a reserved character becomes an entity that starts with `&` and ends with `;`, any other character stays itself |
| `XmlEscape.ReplaceAll` | src/utils/conversionUtils.ts:100-105 | a global replace leaves no occurrence of the replaced character unless the replacement has one, and every character of the result comes from the input (other than the replaced one) or from the replacement |
| `XmlEscape.EscapeChain` | src/utils/conversionUtils.ts:100-105 | after the five chained replacements no raw `<`, `>`, `"` or `'` is left |
| `XmlEscape.EscapeChainIsPerCharacter` | src/utils/conversionUtils.ts:100-105 | the five global replacements, `&` first, equal replacing each character by its entity independently, so no entity is escaped twice |
| `XmlEscape.UnescapeEscape` | src/utils/conversionUtils.ts:100-105 | escaping loses nothing: decoding the entities gives back the original text |
| `XmlEscape.EscapeTextWellEscaped` | src/utils/conversionUtils.ts:100-105 | escaped text contains no `<`, `>`, `"` or `'`, and every `&` starts one of the five entities |
| `XmlEscape.EscapeKeepsOrdinaryText` | src/utils/conversionUtils.ts:100-105 | text without reserved characters is left unchanged |
| `XmlEscape.EscapeTextAppend` | src/utils/conversionUtils.ts:100-105 | escaping distributes over concatenation |
| `TextLines.JoinLines` | src/utils/conversionUtils.ts:96 | the pieces of `split('\n')` joined with newlines give back the text |
| `TextLines.Lines` | src/utils/conversionUtils.ts:96 | `split('\n')` always yields at least one piece |
| `TextLines.Paragraphs` | src/utils/conversionUtils.ts:96 | the split and filter never yield more paragraphs than pieces |
| `TextLines.ParagraphsAreNonBlankLines` | src/utils/conversionUtils.ts:96 | a string is a paragraph iff it is a piece of the split whose trim is non-empty |
| `TextLines.LinesCount` | src/utils/conversionUtils.ts:96 | `split('\n')` yields one piece more than there are newlines |
| `TextLines.LinesHaveNoNewline` | src/utils/conversionUtils.ts:96 | no piece contains a newline |
| `TextLines.LinesOfJoin` | src/utils/conversionUtils.ts:96 | splitting newline-free lines joined by newlines gives the lines back |
| `TextLines.NonBlank` | src/utils/conversionUtils.ts:96 | the filter keeps exactly the lines that do not trim to empty, and never adds any |
| `TextLines.ParagraphsAppend` | src/utils/conversionUtils.ts:96 | the paragraphs of two texts joined by a newline are the paragraphs of each, in order |
| `TextLines.ParagraphsWithoutBlankLines` | src/utils/conversionUtils.ts:96 | a text with no blank line has one paragraph per line, newline count plus one |
| `TextLines.BlankLineDropped` | src/utils/conversionUtils.ts:96 | a blank line between two lines produces no paragraph of its own |
| `TextLines.SingleNewlineSeparates` | src/utils/conversionUtils.ts:96 | a single newline already separates two paragraphs |
| `DocxXml.ExtractText` | src/utils/conversionUtils.ts:89-93 | content that contains both `<` and `>` is treated as HTML and stripped of tags, any other content is used as it is |
| `DocxXml.ParagraphXml` | src/utils/conversionUtils.ts:107-119 | a paragraph block starts and ends with the fixed run markup, and the text between holds no `<` and decodes back to the paragraph |
| `DocxXml.BodyXml` | src/utils/conversionUtils.ts:99-120 | the joined blocks are empty iff there are no paragraphs |
| `DocxXml.DocumentXml` | src/utils/conversionUtils.ts:86-132 | the document starts with the XML declaration, `w:document` and `w:body`, and ends with the section properties and closing tags |
| `DocxXml.ParseBlock` | src/utils/conversionUtils.ts:107-119 | one block of opening tags, escaped text and closing tags reads back as the text, and reading continues after it |
| `DocxXml.ParseBodyXml` | src/utils/conversionUtils.ts:98-120 | the paragraph elements produced for a list of paragraphs read back as exactly that list |
| `DocxXml.DecodeDocumentXml` | src/utils/conversionUtils.ts:86-132 | reading the generated document back yields exactly the non-blank lines of the extracted text, in order, unescaped |
| `DocxXml.DocumentSectionProperties` | src/utils/conversionUtils.ts:122-131 | whatever the content, the document ends with the fixed section properties: a 12240 x 15840 twip page with 1440 twip margins on all four sides |
| `DocxXml.DocumentParagraphCount` | src/utils/conversionUtils.ts:96-131 | the document holds one paragraph per non-blank line, so no more paragraphs than `split('\n')` has pieces |
| `DocxPackage.Paths` | src/utils/conversionUtils.ts:138-159 | the paths of a part list, position by position |
| `DocxPackage.Lookup` | src/utils/conversionUtils.ts:138-159 | a path is found in the package iff one of its parts has it |
| `DocxPackage.PackageParts` | src/utils/conversionUtils.ts:135-164 | the package consists of `[Content_Types].xml`, `_rels/.rels`, `word/document.xml` and `word/_rels/document.xml.rels`, in that order |
| `DocxPackage.PackageLookup` | src/utils/conversionUtils.ts:135-164 | looking up `word/document.xml` yields the generated document, and each other path yields its fixed content |
| `DocxPackage.DocumentPathsDiffer` | src/utils/conversionUtils.ts:142-159 | the four part paths are pairwise distinct |
| `DocxPackage.PackageRefersToDocumentPart` | src/utils/conversionUtils.ts:142-153 | the package relationships target `word/document.xml` and the content types declare it |
| `DocxPackage.ConvertToDocx` | src/utils/conversionUtils.ts:166-191 | progress is a prefix of 10, 30, 60, 100; the conversion succeeds iff packaging does not throw, iff 100 is reported; on success the package holds the four parts and its document reads back as the paragraphs of the text; on failure 10, 30, 60 were reported and the error is `DOCX conversion failed: ` followed by the cause's message or `Unknown error` |
| `DocxPackage.DocxCheckpointsWellFormed` | src/utils/conversionUtils.ts:171-184 | the DOCX progress values are percentages and strictly increase |
| `ConversionProgress.PrefixWellFormed` | src/utils/conversionUtils.ts:10-77 | any prefix of a well-formed progress sequence is well formed, so an aborted run still reports increasing percentages |
| `PdfConversion.Ceil` | src/utils/conversionUtils.ts:54-72 | the least integer not below its argument |
| `PdfConversion.PageCount` | src/utils/conversionUtils.ts:54-72 | at least one page; for a positive image height, the pages before the last do not cover the image and all pages do; an image no taller than the printable height takes one page |
| `PdfConversion.ScaledHeight` | src/utils/conversionUtils.ts:52-57 | the image keeps the canvas's aspect ratio, and is non-negative for non-negative dimensions |
| `PdfConversion.Paginate` | src/utils/conversionUtils.ts:58-72 | the loop draws `PageCount` pages, page k at x = 10 with its image shifted up by k printable heights (y = 10 − k·(pageHeight − 20)), width pageWidth − 20, full image height |
| `PdfConversion.MoreToShow` | src/utils/conversionUtils.ts:64-71 | after n pages the loop continues iff image height is left over, iff n is below the page count |
| `PdfConversion.ContainerFor` | src/utils/conversionUtils.ts:24-34 | HTML files are rendered as markup, any other file as preformatted text, with the file's content either way |
| `PdfConversion.PdfProgress` | src/utils/conversionUtils.ts:10-77 | progress is a well-formed prefix of 10, 30, 60, 90, 100 of at least two values, ending with 100 iff no step threw |
| `PdfConversion.PdfCheckpointsWellFormed` | src/utils/conversionUtils.ts:10-77 | the PDF progress values are percentages and strictly increase |
| `PdfConversion.DocumentBody.AppendChild` | src/utils/conversionUtils.ts:36 | the body gains one child |
| `PdfConversion.DocumentBody.RemoveChild` | src/utils/conversionUtils.ts:80-82 | the body loses one child |
| `PdfConversion.ConvertToPdf` | src/utils/conversionUtils.ts:5-83 | the temporary container is removed on every path; the reported progress is that of the fault; the result is a PDF iff nothing threw, otherwise the thrown value unchanged; the PDF's pages are those of the pagination of the scaled canvas |
| `FileConversion.FindById` | src/hooks/useFileConversion.ts:26-27 | nothing iff no entry has the id; otherwise an entry of the list with that id |
| `FileConversion.FindIsFirst` | src/hooks/useFileConversion.ts:26 | the entry found is the first with that id |
| `FileConversion.FindUnique` | src/hooks/useFileConversion.ts:77 | with unique ids, looking up an entry's id finds that very entry |
| `FileConversion.MapById` | src/hooks/useFileConversion.ts:18-22 | the same number of entries, those with the id transformed and all others unchanged |
| `FileConversion.WithoutId` | src/hooks/useFileConversion.ts:14 | an entry is kept iff it does not have the id |
| `FileConversion.WithoutIdAppend` | src/hooks/useFileConversion.ts:14 | removal works entry by entry and keeps the order of the rest |
| `FileConversion.WithoutAbsentId` | src/hooks/useFileConversion.ts:14 | removing an id nobody has leaves the list unchanged |
| `FileConversion.WithoutIdKeepsUnique` | src/hooks/useFileConversion.ts:14 | removal keeps ids unique |
| `FileConversion.AddFilesKeepsUnique` | src/hooks/useFileConversion.ts:10 | adding entries with fresh distinct ids keeps ids unique |
| `FileConversion.UpdatesKeepIds` | src/hooks/useFileConversion.ts:17-72 | progress updates and conversion results keep ids unique |
| `FileConversion.WithProgress` | src/hooks/useFileConversion.ts:18-22 | the same number of entries; those with the id get the progress and, when one is given, the status; all other entries and fields are unchanged |
| `FileConversion.WithResult` | src/hooks/useFileConversion.ts:51-72 | the entries with the id hold the converter's result, all others are unchanged |
| `FileConversion.FinishConverting` | src/hooks/useFileConversion.ts:35-72 | storing the result over the converting entry gives what storing it over the original entry gives: the intermediate progress leaves no trace |
| `FileConversion.Finished` | src/hooks/useFileConversion.ts:50-72 | on a blob the entry is completed at 100 with the URL; on a throw it is in error at 0 with the thrown message or `Conversion failed`; nothing else about the entry changes |
| `FileConversion.ConvertAbsentId` | src/hooks/useFileConversion.ts:26-27 | converting an unknown id changes nothing |
| `FileConversion.FileList.constructor` | src/hooks/useFileConversion.ts:7 | the list starts empty |
| `FileConversion.FileList.AddFiles` | src/hooks/useFileConversion.ts:9-11 | the new entries are appended after the existing ones |
| `FileConversion.FileList.RemoveFile` | src/hooks/useFileConversion.ts:13-15 | the list loses exactly the entries with the id |
| `FileConversion.FileList.UpdateFileProgress` | src/hooks/useFileConversion.ts:17-23 | entries with the id get the progress, and the status only when one is given |
| `FileConversion.FileList.ConvertFile` | src/hooks/useFileConversion.ts:25-74 | an unknown id changes nothing; otherwise, while the converter runs, the entry is converting with the last reported progress (0 if none), and afterwards it holds the result |
| `FileConversion.FileList.ConvertAllFiles` | src/hooks/useFileConversion.ts:91-97 | the entries pending at the call are converted one after another in list order |
| `FileConversion.ConvertAllConvertsPending` | src/hooks/useFileConversion.ts:91-97 | with unique ids, each entry pending at the call receives the result of its own conversion, the others are untouched, and none is left pending |
| `FileConversion.PendingAt` | src/hooks/useFileConversion.ts:92 | a pending entry's id sits at its own position in the pending list |
| `FileConversion.PendingSource` | src/hooks/useFileConversion.ts:92 | every position of the pending list comes from a pending entry |
| `FileConversion.PendingIdsPrefix` | src/hooks/useFileConversion.ts:92 | the pending entries of a prefix come first in the pending list |
| `FileConversion.ConvertNextPending` | src/hooks/useFileConversion.ts:94-96 | each conversion of the batch finishes exactly the next pending entry |
| `FileConversion.ConvertAllStep` | src/hooks/useFileConversion.ts:94-96 | after k conversions, exactly the first k pending entries are finished |
| `FileConversion.TrailingRun` | src/hooks/useFileConversion.ts:81 | the longest final run of characters other than `/` and `.` |
| `FileConversion.StripExtension` | src/hooks/useFileConversion.ts:81 | the result is a prefix of the name: either the whole name, or the part before a `.` that is followed by a non-empty ending without `/` or `.` |
| `FileConversion.DownloadFileName` | src/hooks/useFileConversion.ts:80-81 | the saved name starts with the stripped name and ends in `.pdf` when the URL contains `pdf`, in `.docx` otherwise |
| `FileConversion.StripExtensionRemovesExtension` | src/hooks/useFileConversion.ts:81 | a name ending in `.` and a non-empty run without `/` or `.` loses exactly that ending |
| `FileConversion.StripExtensionKeepsOthers` | src/hooks/useFileConversion.ts:81 | a name with no such ending is left unchanged |
| `FileConversion.DownloadExtension` | src/hooks/useFileConversion.ts:80 | `pdf` iff the URL contains `pdf`, otherwise `docx` |
| `FileConversion.BlobUrlNamesDocx` | src/hooks/useFileConversion.ts:80 | for an object URL (`blob:`, an origin without `pdf`, `/`, a lowercase UUID) the chosen extension is `docx`, so a converted PDF is saved under a `.docx` name |
| `FileConversion.DownloadNameReplacesExtension` | src/hooks/useFileConversion.ts:80-81 | the saved name is the name without its extension, a dot and the chosen extension |
| `FileConversion.FileList.DownloadConvertedFile` | src/hooks/useFileConversion.ts:76-89 | nothing is downloaded iff no entry has the id or the first one has no URL; otherwise its URL under the derived name |
| `FileConversion.FileList.DownloadAllCompleted` | src/hooks/useFileConversion.ts:99-104 | at most one download per completed entry; with unique ids, exactly the downloads of the completed entries that have a URL, in list order |
| `FileConversion.DownloadedUrlsAreRevoked` | src/hooks/useFileConversion.ts:99-114 | every URL handed out by download-all is one that clearing revokes |
| `FileConversion.CompletedOf` | src/hooks/useFileConversion.ts:100 | exactly the completed entries |
| `FileConversion.FileList.ClearAllFiles` | src/hooks/useFileConversion.ts:106-114 | every present URL is revoked, in list order, and the list becomes empty |

Proof helpers (`DocxXml.IndexOf`, `DocxXml.ParseBlocks`, `DocxXml.Framed`, `DocxXml.EscapedHasNoLt`,
`PdfConversion.CeilScaled`, `PdfConversion.CoveringCount`, `PdfConversion.MulMonotone`,
`FileDropZone.AcceptedArePending`, `FileConversion.ConvertAllSnoc`, `FileConversion.DownloadsOfSnoc`,
`DocxPackage.DocxPackageContents`, `Types.OccursBetween` and the other lemmas of the
`XmlEscape` and `TextLines` modules without a row) support the proofs above and
model no source line of their own.

Some functions model one source expression and are seen through the rows of
their callers:
`FileConversion.SetProgress` (src/hooks/useFileConversion.ts:20, the spread in `updateFileProgress`),
`FileConversion.FailureMessage` (src/hooks/useFileConversion.ts:69, the stored error message),
`DocxPackage.DocxCauseMessage` (src/utils/conversionUtils.ts:189, the cause in the rethrown message),
`PdfConversion.PagePlacement` (src/utils/conversionUtils.ts:63 and 69-70, where each page draws the image),
`FileDropZone.Intakes` (src/components/FileDropZone.tsx:19-45, the outcome of each file in the loop) and
`FileConversion.Results` (src/hooks/useFileConversion.ts:93-95, the result of each conversion `convertAllFiles` awaits).

## Left out

- Rendering: html2canvas, jsPDF and JSZip are not modelled. The canvas is a parameter; the PDF is the list of its image placements; the zip is its list of parts, without compression and without the empty directory entries `_rels/`, `word/` and `word/_rels/` that the `folder()` calls create.
- Stripping HTML tags through a detached DOM element is the parameter `stripTags`; `formatFileSize` is the parameter `formatSize` and its floating-point formatting is not modelled.
- `generateFileId`, `readFileContent`, `downloadFile`, `URL.createObjectURL` and `URL.revokeObjectURL` are I/O: ids, read contents and URLs are inputs, and revocations and downloads are returned lists.
- Concurrency: conversions are asynchronous and their state updates can interleave; the model runs every call to completion before the next. The hook's functions read the `files` of the render that created them; with sequential calls that snapshot differs from the current list only in fields the lookup does not use.
- `preserveStyles` and `includeImages` are never read by the converters and are not modelled; neither is the `format` argument, which only chooses the converter whose run is given.
- `PdfConversion.PageCount`: JavaScript doubles are modelled as exact reals, so rounding in the page arithmetic is not captured.
- `PdfConversion.ConvertToPdf`: requires a canvas of positive width and a page taller than its margins, which A4 pages and a rendered 794-pixel container always give.
- `PdfConversion.PdfProgress` and `DocxPackage.ConvertToDocx` state the reported values, not when they are reported relative to the library calls.
- `FileConversion.ConvertAllConvertsPending` and `FileConversion.FileList.DownloadAllCompleted`: the exact per-entry statements assume unique ids, which `generateFileId` gives in practice but does not guarantee.
- `FileConversion.DownloadExtension` is modelled as written: it looks for `pdf` anywhere in the object URL, which is `blob:` followed by the page origin, `/` and a UUID in lowercase hexadecimal. The UUID cannot contain `pdf`, so the extension is `pdf` only when the page origin contains it; a converted PDF is normally saved under a `.docx` name (`FileConversion.BlobUrlNamesDocx`). The model does not pick the extension from the chosen format instead, because the file entry does not record that format.
- FileDropZone.Preview: lengths and the 500-character cut count Unicode characters, while JavaScript's `length` and `substring` count UTF-16 code units; for text with characters outside the Basic Multilingual Plane the source keeps fewer characters, may append `...` where the model does not, and may cut a surrogate pair in half, which a Dafny string cannot represent.
- App.tsx, FileCard.tsx and BatchControls.tsx only lay out buttons and lists and are not part of this model.
