/**
 * The `word/document.xml` part generated by `createDocxXml`
 * (src/utils/conversionUtils.ts:86-132): text extraction, paragraph split,
 * escaping and the fixed WordprocessingML templates. `DecodeDocument` reads the
 * paragraphs back out of a generated document, so the layout can be stated as a
 * round trip.
 */
module DocxXml {
  import opened Wrappers
  import opened Types
  import opened XmlEscape
  import opened TextLines

  /** The content is routed through tag stripping iff it holds both a `<` and a `>`. */
  predicate LooksLikeHtml(content: string)
  {
    '<' in content && '>' in content
  }

  /**
   * The text the paragraphs are taken from. Tag stripping is done by the browser's
   * DOM (`innerHTML` then `textContent`), given here as the function `stripTags`.
   * Whether it is used depends on the content alone, never on the file's MIME type.
   */
  function ExtractText(content: string, stripTags: string -> string): (text: string)
    ensures LooksLikeHtml(content) ==> text == stripTags(content)
    ensures !LooksLikeHtml(content) ==> text == content
  {
    if LooksLikeHtml(content) then stripTags(content) else content
  }

  /** Everything of one paragraph block before its escaped text. */
  const ParagraphOpen: string :=
    "\n      <w:p>\n        <w:pPr>\n          <w:spacing w:after=\"120\"/>\n        </w:pPr>"
    + "\n        <w:r>\n          <w:rPr>\n            <w:rFonts w:ascii=\"Calibri\" w:hAnsi=\"Calibri\"/>"
    + "\n            <w:sz w:val=\"22\"/>\n          </w:rPr>\n          <w:t>"

  /** Everything of one paragraph block after its escaped text. */
  const ParagraphClose: string := "</w:t>\n        </w:r>\n      </w:p>"

  /** The XML declaration, the document element and the opening of the body. */
  const DocumentHead: string :=
    "<?xml version=\"1.0\" encoding=\"UTF-8\" standalone=\"yes\"?>\n"
    + "<w:document xmlns:w=\"http://schemas.openxmlformats.org/wordprocessingml/2006/main\">\n"
    + "  <w:body>\n    "

  /** The page size of the section: US Letter, 12240 x 15840 twips. */
  const PageSize: string := "<w:pgSz w:w=\"12240\" w:h=\"15840\"/>"

  /** The page margins of the section: 1440 twips (one inch) on all four sides. */
  const PageMargins: string := "<w:pgMar w:top=\"1440\" w:right=\"1440\" w:bottom=\"1440\" w:left=\"1440\"/>"

  /** The section properties and the closing tags. */
  const DocumentTail: string :=
    SectionOpen + PageSize + "\n      " + PageMargins + "\n    </w:sectPr>\n  </w:body>\n</w:document>"

  /** What precedes the page size in the section properties. */
  const SectionOpen: string := "\n    <w:sectPr>\n      "

  /** One `<w:p>` block holding the escaped paragraph text in a Calibri 11pt run. */
  function ParagraphXml(paragraph: string): (r: string)
    ensures |r| >= |ParagraphOpen| + |ParagraphClose|
    ensures r[..|ParagraphOpen|] == ParagraphOpen && r[|r| - |ParagraphClose|..] == ParagraphClose
    ensures var text := r[|ParagraphOpen|..|r| - |ParagraphClose|];
      '<' !in text && Unescape(text) == paragraph
  {
    var e := EscapeText(paragraph);
    EscapedHasNoLt(paragraph);
    UnescapeEscape(paragraph);
    Framed(ParagraphOpen, e, ParagraphClose);
    ParagraphOpen + e + ParagraphClose
  }

  /** The blocks of all paragraphs, in order, with nothing between them (`join('')`). */
  function BodyXml(paragraphs: seq<string>): (r: string)
    ensures paragraphs == [] <==> r == []
  {
    if paragraphs == [] then "" else ParagraphXml(paragraphs[0]) + BodyXml(paragraphs[1..])
  }

  /** The generated `word/document.xml`. */
  function DocumentXml(content: string, stripTags: string -> string): (r: string)
    ensures |r| >= |DocumentHead| + |DocumentTail|
    ensures r[..|DocumentHead|] == DocumentHead && r[|r| - |DocumentTail|..] == DocumentTail
  {
    var body := BodyXml(Paragraphs(ExtractText(content, stripTags)));
    Framed(DocumentHead, body, DocumentTail);
    DocumentHead + body + DocumentTail
  }

  /** The pieces of `open + middle + close` are found back at their offsets. */
  lemma Framed(open: string, middle: string, close: string)
    ensures var s := open + middle + close;
      s[..|open|] == open && s[|s| - |close|..] == close && s[|open|..|s| - |close|] == middle
  {
  }

  /** Escaped text contains no `<`, so the first `<` after it is the closing tag's. */
  lemma EscapedHasNoLt(s: string)
    ensures '<' !in EscapeText(s)
  {
    var e := EscapeText(s);
    EscapeTextWellEscaped(s);
    assert forall i :: 0 <= i < |e| ==> e[i] != '<';
  }

  /** Index of the first `c` in `s`, or `|s|` when there is none. */
  function IndexOf(s: string, c: char): (k: nat)
    ensures k <= |s|
    ensures forall i :: 0 <= i < k ==> s[i] != c
    ensures k < |s| ==> s[k] == c
  {
    if s == [] then 0 else if s[0] == c then 0 else 1 + IndexOf(s[1..], c)
  }

  /** Reads a sequence of blocks `open + escaped text + close` back into the texts. */
  function ParseBlocks(s: string, open: string, close: string): Option<seq<string>>
    requires close != []
    decreases |s|
  {
    if s == [] then Some([])
    else if !OccursAt(s, open, 0) then None
    else
      var rest := s[|open|..];
      var k := IndexOf(rest, close[0]);
      if k < |rest| && OccursAt(rest[k..], close, 0) then
        match ParseBlocks(rest[k + |close|..], open, close)
        case None => None
        case Some(ps) => Some([Unescape(rest[..k])] + ps)
      else None
  }

  /** Reads a sequence of paragraph blocks back into the paragraph texts. */
  function ParseBody(s: string): Option<seq<string>>
  {
    ParseBlocks(s, ParagraphOpen, ParagraphClose)
  }

  /** Reads a whole generated document back into its paragraphs. */
  function DecodeDocument(xml: string): Option<seq<string>>
  {
    if |xml| >= |DocumentHead| + |DocumentTail|
       && xml[..|DocumentHead|] == DocumentHead
       && xml[|xml| - |DocumentTail|..] == DocumentTail
    then ParseBody(xml[|DocumentHead|..|xml| - |DocumentTail|])
    else None
  }

  lemma IndexOfAppend(a: string, b: string, c: char)
    requires c !in a && b != [] && b[0] == c
    ensures IndexOf(a + b, c) == |a|
  {
    assert forall i :: 0 <= i < |a| ==> (a + b)[i] == a[i];
    assert (a + b)[|a|] == c;
  }

  /** One block reads back as its text, and reading continues after it, whatever the tags. */
  lemma ParseBlock(open: string, text: string, close: string, more: string)
    requires close != [] && close[0] !in EscapeText(text)
    ensures ParseBlocks(open + EscapeText(text) + close + more, open, close) ==
      match ParseBlocks(more, open, close)
      case None => None
      case Some(ps) => Some([text] + ps)
  {
    var e := EscapeText(text);
    var s := open + e + close + more;
    assert s == open + (e + (close + more));
    assert OccursAt(s, open, 0) by {
      PrefixOccurs(open, e + (close + more));
    }
    var rest := s[|open|..];
    assert rest == e + (close + more);
    IndexOfAppend(e, close + more, close[0]);
    assert rest[|e|..] == close + more;
    PrefixOccurs(close, more);
    assert rest[|e| + |close|..] == more;
    assert rest[..|e|] == e;
    UnescapeEscape(text);
  }

  /** One paragraph block reads back as its paragraph, and parsing continues after it. */
  lemma ParseParagraph(p: string, more: string)
    ensures ParseBody(ParagraphXml(p) + more) ==
      match ParseBody(more)
      case None => None
      case Some(ps) => Some([p] + ps)
  {
    var e := EscapeText(p);
    assert ParagraphClose[0] == '<';
    EscapedHasNoLt(p);
    ParseBlock(ParagraphOpen, p, ParagraphClose, more);
    assert ParagraphXml(p) + more == ParagraphOpen + e + ParagraphClose + more;
  }

  /** Every paragraph is read back from its block, in order, and nothing else is. */
  lemma {:induction false} ParseBodyXml(paragraphs: seq<string>)
    ensures ParseBody(BodyXml(paragraphs)) == Some(paragraphs)
  {
    if paragraphs != [] {
      var more := BodyXml(paragraphs[1..]);
      assert BodyXml(paragraphs) == ParagraphXml(paragraphs[0]) + more;
      ParseBodyXml(paragraphs[1..]);
      assert ParseBody(more) == Some(paragraphs[1..]);
      ParseParagraph(paragraphs[0], more);
      assert [paragraphs[0]] + paragraphs[1..] == paragraphs;
    }
  }

  /**
   * The document holds one `<w:p>` block per extracted paragraph, in order,
   * between the fixed head and the fixed section properties: decoding it gives
   * back exactly the non-blank lines of the extracted text.
   */
  lemma DecodeDocumentXml(content: string, stripTags: string -> string)
    ensures DecodeDocument(DocumentXml(content, stripTags))
         == Some(Paragraphs(ExtractText(content, stripTags)))
  {
    var ps := Paragraphs(ExtractText(content, stripTags));
    var body := BodyXml(ps);
    var xml := DocumentXml(content, stripTags);
    assert xml == DocumentHead + body + DocumentTail;
    assert xml[..|DocumentHead|] == DocumentHead;
    assert xml[|xml| - |DocumentTail|..] == DocumentTail;
    assert xml[|DocumentHead|..|xml| - |DocumentTail|] == body;
    ParseBodyXml(ps);
  }

  /** The number of paragraph blocks equals the number of non-blank lines. */
  lemma DocumentParagraphCount(content: string, stripTags: string -> string)
    ensures var d := DecodeDocument(DocumentXml(content, stripTags));
      d.Some? && |d.value| == |Paragraphs(ExtractText(content, stripTags))|
      && |d.value| <= |Lines(ExtractText(content, stripTags))|
  {
    DecodeDocumentXml(content, stripTags);
  }

  /**
   * Whatever the content, the document ends with the fixed section properties,
   * which give the page size and the four margins.
   */
  lemma DocumentSectionProperties(content: string, stripTags: string -> string)
    ensures var xml := DocumentXml(content, stripTags);
      |xml| >= |DocumentTail| && xml[|xml| - |DocumentTail|..] == DocumentTail
      && Contains(xml, PageSize) && Contains(xml, PageMargins)
  {
    var front := DocumentHead + BodyXml(Paragraphs(ExtractText(content, stripTags)));
    SectionFacts(front, SectionOpen, PageSize, "\n      ", PageMargins,
                 "\n    </w:sectPr>\n  </w:body>\n</w:document>");
  }

  /** The placement facts behind `DocumentSectionProperties`, for any pieces. */
  lemma SectionFacts(front: string, open: string, size: string, between: string, margins: string, close: string)
    ensures var tail := open + size + between + margins + close;
      var xml := front + tail;
      xml[|xml| - |tail|..] == tail && Contains(xml, size) && Contains(xml, margins)
  {
    var tail := open + size + between + margins + close;
    var xml := front + tail;
    assert xml == (front + open) + size + (between + margins + close);
    OccursBetween(front + open, size, between + margins + close);
    assert xml == (front + open + size + between) + margins + close;
    OccursBetween(front + open + size + between, margins, close);
  }
}
