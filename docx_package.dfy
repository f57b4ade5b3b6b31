/**
 * The DOCX package (src/utils/conversionUtils.ts:135-164) and the DOCX converter
 * (src/utils/conversionUtils.ts:166-191). The package is the list of its parts in
 * the Open Packaging Conventions layout of ECMA-376 Part 2; zip compression is
 * not modelled.
 */
module DocxPackage {
  import opened Wrappers
  import opened Types
  import opened TextLines
  import opened DocxXml
  import opened ConversionProgress

  /** One file of the archive: its path inside the zip and its text. */
  datatype Part = Part(path: string, content: string)

  const ContentTypesPath: string := "[Content_Types].xml"
  const PackageRelsPath: string := "_rels/.rels"
  const DocumentPath: string := "word/document.xml"
  const DocumentRelsPath: string := "word/_rels/document.xml.rels"

  /** Declares the `.rels` and `.xml` defaults and overrides the main document part. */
  const ContentTypesXml: string := ContentTypesBefore + DocumentPartName + ContentTypesAfter

  const ContentTypesBefore: string :=
    "<?xml version=\"1.0\" encoding=\"UTF-8\" standalone=\"yes\"?>\n"
    + "<Types xmlns=\"http://schemas.openxmlformats.org/package/2006/content-types\">\n"
    + "  <Default Extension=\"rels\" ContentType=\"application/vnd.openxmlformats-package.relationships+xml\"/>\n"
    + "  <Default Extension=\"xml\" ContentType=\"application/xml\"/>\n"
    + "  <Override "
  const DocumentPartName: string := "PartName=\"/" + DocumentPath + "\""
  const ContentTypesAfter: string :=
    " ContentType=\"application/vnd.openxmlformats-officedocument.wordprocessingml.document.main+xml\"/>\n"
    + "</Types>"

  /** The single package relationship, from the root to the main document. */
  const PackageRelsXml: string := PackageRelsBefore + DocumentTarget + PackageRelsAfter

  const PackageRelsBefore: string :=
    "<?xml version=\"1.0\" encoding=\"UTF-8\" standalone=\"yes\"?>\n"
    + "<Relationships xmlns=\"http://schemas.openxmlformats.org/package/2006/relationships\">\n"
    + "  <Relationship Id=\"rId1\" Type=\"http://schemas.openxmlformats.org/officeDocument/2006/relationships/officeDocument\" "
  const DocumentTarget: string := "Target=\"" + DocumentPath + "\""
  const PackageRelsAfter: string := "/>\n</Relationships>"

  /** The document's own relationships: none. */
  const DocumentRelsXml: string :=
    "<?xml version=\"1.0\" encoding=\"UTF-8\" standalone=\"yes\"?>\n"
    + "<Relationships xmlns=\"http://schemas.openxmlformats.org/package/2006/relationships\">\n"
    + "</Relationships>"

  /** The paths of the parts, in the order they were added. */
  function Paths(parts: seq<Part>): (paths: seq<string>)
    ensures |paths| == |parts|
    ensures forall i :: 0 <= i < |parts| ==> paths[i] == parts[i].path
  {
    if parts == [] then [] else [parts[0].path] + Paths(parts[1..])
  }

  /** The text of the first part stored under `path`. */
  function Lookup(parts: seq<Part>, path: string): (r: Option<string>)
    ensures r.None? <==> path !in Paths(parts)
  {
    if parts == [] then None
    else if parts[0].path == path then Some(parts[0].content)
    else Lookup(parts[1..], path)
  }

  /** `createDocxZip`: the four parts of a minimal word-processing package, in the order added. */
  function PackageParts(documentXml: string): (parts: seq<Part>)
    ensures Paths(parts) == [ContentTypesPath, PackageRelsPath, DocumentPath, DocumentRelsPath]
  {
    [ Part(ContentTypesPath, ContentTypesXml),
      Part(PackageRelsPath, PackageRelsXml),
      Part(DocumentPath, documentXml),
      Part(DocumentRelsPath, DocumentRelsXml) ]
  }

  /** Each of the four paths retrieves its own part; `word/document.xml` holds the generated XML. */
  lemma PackageLookup(documentXml: string)
    ensures var parts := PackageParts(documentXml);
      && Lookup(parts, ContentTypesPath) == Some(ContentTypesXml)
      && Lookup(parts, PackageRelsPath) == Some(PackageRelsXml)
      && Lookup(parts, DocumentPath) == Some(documentXml)
      && Lookup(parts, DocumentRelsPath) == Some(DocumentRelsXml)
  {
    DocumentPathsDiffer();
    var a := PackageParts(documentXml);
    var b, c, d := a[1..], a[2..], a[3..];
    assert a[1..][1..] == c && c[1..] == d && d[1..] == [];
    assert Lookup(d, DocumentRelsPath) == Some(DocumentRelsXml);
    assert Lookup(c, DocumentPath) == Some(documentXml);
    assert Lookup(c, DocumentRelsPath) == Some(DocumentRelsXml);
    assert Lookup(b, PackageRelsPath) == Some(PackageRelsXml);
  }

  /** The four part paths are distinct, so every part is reachable by its path. */
  lemma DocumentPathsDiffer()
    ensures ContentTypesPath != PackageRelsPath && ContentTypesPath != DocumentPath
    ensures ContentTypesPath != DocumentRelsPath && PackageRelsPath != DocumentPath
    ensures PackageRelsPath != DocumentRelsPath && DocumentPath != DocumentRelsPath
  {
    assert ContentTypesPath[0] == '[' && PackageRelsPath[0] == '_';
    assert DocumentPath[0] == 'w' && DocumentRelsPath[0] == 'w';
    assert DocumentPath[5] == 'd' && DocumentRelsPath[5] == '_';
  }

  /** The package relationship and the content-type override both name the document part. */
  lemma PackageRefersToDocumentPart()
    ensures Contains(PackageRelsXml, "Target=\"" + DocumentPath + "\"")
    ensures Contains(ContentTypesXml, "PartName=\"/" + DocumentPath + "\"")
  {
    OccursBetween(PackageRelsBefore, DocumentTarget, PackageRelsAfter);
    OccursBetween(ContentTypesBefore, DocumentPartName, ContentTypesAfter);
  }

  /** The message of a thrown value, as `error instanceof Error ? error.message : 'Unknown error'`. */
  function DocxCauseMessage(t: Thrown): string
  {
    match t
    case ErrorObject(m) => m
    case NonError => "Unknown error"
  }

  /** What one call of the DOCX converter reports and produces. */
  datatype DocxRun = DocxRun(progress: seq<int>, result: Result<seq<Part>, string>)

  /**
   * `convertToDOCX`. The only step that can throw is the archive step (loading
   * the zip library, generating the archive); `zipFault` is what it throws, if
   * anything. The error is rethrown with the prefix "DOCX conversion failed: ".
   */
  function ConvertToDocx(content: string, stripTags: string -> string, zipFault: Option<Thrown>): (run: DocxRun)
    ensures WellFormed(run.progress)
    ensures |run.progress| <= |DocxCheckpoints| && run.progress == DocxCheckpoints[..|run.progress|]
    ensures run.result.Success? <==> zipFault.None?
    ensures run.result.Success? <==> |run.progress| > 0 && run.progress[|run.progress| - 1] == 100
    ensures run.result.Success? ==>
      var doc := Lookup(run.result.value, DocumentPath);
      Paths(run.result.value) == [ContentTypesPath, PackageRelsPath, DocumentPath, DocumentRelsPath]
      && doc.Some?
      && DecodeDocument(doc.value) == Some(Paragraphs(ExtractText(content, stripTags)))
    ensures zipFault.Some? ==>
      run.progress == [10, 30, 60]
      && run.result == Failure("DOCX conversion failed: " + DocxCauseMessage(zipFault.value))
  {
    DocxCheckpointsWellFormed();
    if zipFault.None? then
      DocxPackageContents(content, stripTags);
      assert DocxCheckpoints[..4] == DocxCheckpoints;
      DocxRun(DocxCheckpoints, Success(PackageParts(DocumentXml(content, stripTags))))
    else
      PrefixWellFormed(DocxCheckpoints, 3);
      assert DocxCheckpoints[..3] == [10, 30, 60];
      DocxRun(DocxCheckpoints[..3], Failure("DOCX conversion failed: " + DocxCauseMessage(zipFault.value)))
  }

  /** The package built for some content has the four parts, and its document reads back as the paragraphs. */
  lemma DocxPackageContents(content: string, stripTags: string -> string)
    ensures var parts := PackageParts(DocumentXml(content, stripTags));
      var doc := Lookup(parts, DocumentPath);
      Paths(parts) == [ContentTypesPath, PackageRelsPath, DocumentPath, DocumentRelsPath]
      && doc.Some?
      && DecodeDocument(doc.value) == Some(Paragraphs(ExtractText(content, stripTags)))
  {
    var documentXml := DocumentXml(content, stripTags);
    DecodeDocumentXml(content, stripTags);
    PackageLookup(documentXml);
  }

  lemma DocxCheckpointsWellFormed()
    ensures WellFormed(DocxCheckpoints)
  {
  }
}
