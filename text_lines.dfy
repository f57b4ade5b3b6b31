/**
 * Paragraph extraction for the DOCX body (src/utils/conversionUtils.ts:96):
 * `text.split('\n').filter(line => line.trim() !== '')`. The text is split on
 * EVERY newline; blank pieces are dropped and kept pieces are not trimmed.
 */
module TextLines {
  import opened Types

  /** `s.split('\n')`: the pieces between newlines; always at least one piece. */
  function Lines(s: string): (r: seq<string>)
    ensures |r| >= 1
    decreases |s|
  {
    if s == [] then [""]
    else if s[0] == '\n' then [""] + Lines(s[1..])
    else
      var rest := Lines(s[1..]);
      [[s[0]] + rest[0]] + rest[1..]
  }

  /** `ls.join('\n')`. */
  function Join(ls: seq<string>): string
  {
    if |ls| == 0 then ""
    else if |ls| == 1 then ls[0]
    else ls[0] + "\n" + Join(ls[1..])
  }

  /** Number of newline characters in `s`. */
  function NewlineCount(s: string): nat
  {
    if s == [] then 0 else (if s[0] == '\n' then 1 else 0) + NewlineCount(s[1..])
  }

  /** The pieces whose trim is non-empty, in their original order. */
  function NonBlank(ls: seq<string>): (r: seq<string>)
    ensures |r| <= |ls|
    ensures forall p :: p in r <==> p in ls && !IsBlank(p)
  {
    if ls == [] then []
    else (if IsBlank(ls[0]) then [] else [ls[0]]) + NonBlank(ls[1..])
  }

  /** The paragraphs the DOCX converter emits for extracted text `text`. */
  function Paragraphs(text: string): (r: seq<string>)
    ensures |r| <= |Lines(text)|
  {
    NonBlank(Lines(text))
  }

  /** Joining the pieces with newlines gives the text back. */
  lemma {:induction false} JoinLines(s: string)
    ensures Join(Lines(s)) == s
    decreases |s|
  {
    if s != [] {
      var r := Lines(s[1..]);
      JoinLines(s[1..]);
      if s[0] != '\n' && |r| > 1 {
        assert Join(r) == r[0] + "\n" + Join(r[1..]);
        assert Lines(s)[1..] == r[1..];
      }
    }
  }

  /** No piece contains a newline. */
  lemma {:induction false} LinesHaveNoNewline(s: string)
    ensures forall i :: 0 <= i < |Lines(s)| ==> '\n' !in Lines(s)[i]
    decreases |s|
  {
    if s != [] {
      LinesHaveNoNewline(s[1..]);
    }
  }

  /** There is exactly one more piece than there are newlines. */
  lemma {:induction false} LinesCount(s: string)
    ensures |Lines(s)| == NewlineCount(s) + 1
    decreases |s|
  {
    if s != [] {
      LinesCount(s[1..]);
    }
  }

  /** A line without newlines is one piece. */
  lemma {:induction false} LinesOfLine(l: string)
    requires '\n' !in l
    ensures Lines(l) == [l]
    decreases |l|
  {
    if l != [] {
      LinesOfLine(l[1..]);
      assert [l[0]] + l[1..] == l;
    }
  }

  /** Splitting distributes over a newline: the pieces of `a` then those of `b`. */
  lemma {:induction false} LinesAppend(a: string, b: string)
    ensures Lines(a + "\n" + b) == Lines(a) + Lines(b)
    decreases |a|
  {
    var s := a + "\n" + b;
    if a == [] {
      assert s == "\n" + b && s[1..] == b;
    } else {
      assert s[0] == a[0] && s[1..] == a[1..] + "\n" + b;
      LinesAppend(a[1..], b);
    }
  }

  /** `Lines` inverts `Join` on pieces without newlines. */
  lemma {:induction false} LinesOfJoin(ls: seq<string>)
    requires |ls| >= 1
    requires forall i :: 0 <= i < |ls| ==> '\n' !in ls[i]
    ensures Lines(Join(ls)) == ls
  {
    if |ls| == 1 {
      LinesOfLine(ls[0]);
    } else {
      LinesOfJoin(ls[1..]);
      LinesOfLine(ls[0]);
      LinesAppend(ls[0], Join(ls[1..]));
      assert ls == [ls[0]] + ls[1..];
    }
  }

  lemma {:induction false} NonBlankAppend(a: seq<string>, b: seq<string>)
    ensures NonBlank(a + b) == NonBlank(a) + NonBlank(b)
  {
    if a == [] {
      assert a + b == b;
    } else {
      assert (a + b)[0] == a[0] && (a + b)[1..] == a[1..] + b;
      NonBlankAppend(a[1..], b);
    }
  }

  /**
   * Paragraph extraction distributes over a newline: a single newline always
   * separates paragraphs, it is never folded into one paragraph.
   */
  lemma ParagraphsAppend(a: string, b: string)
    ensures Paragraphs(a + "\n" + b) == Paragraphs(a) + Paragraphs(b)
  {
    LinesAppend(a, b);
    NonBlankAppend(Lines(a), Lines(b));
  }

  /** A single line is one paragraph, kept as it is (not trimmed), unless it is blank. */
  lemma ParagraphsOfLine(l: string)
    requires '\n' !in l
    ensures Paragraphs(l) == if IsBlank(l) then [] else [l]
  {
    LinesOfLine(l);
  }

  /** When no piece is blank, every piece is a paragraph and there is one per line. */
  lemma {:induction false} ParagraphsWithoutBlankLines(text: string)
    requires forall i :: 0 <= i < |Lines(text)| ==> !IsBlank(Lines(text)[i])
    ensures Paragraphs(text) == Lines(text)
    ensures |Paragraphs(text)| == NewlineCount(text) + 1
  {
    NonBlankKeepsAll(Lines(text));
    LinesCount(text);
  }

  lemma {:induction false} NonBlankKeepsAll(ls: seq<string>)
    requires forall i :: 0 <= i < |ls| ==> !IsBlank(ls[i])
    ensures NonBlank(ls) == ls
  {
    if ls != [] {
      NonBlankKeepsAll(ls[1..]);
    }
  }

  /** The paragraphs are exactly the pieces of the split whose trim is non-empty. */
  lemma ParagraphsAreNonBlankLines(text: string)
    ensures forall p :: p in Paragraphs(text) <==> p in Lines(text) && !IsBlank(p)
  {
  }

  /** Two non-blank lines separated by a blank line give exactly those two paragraphs. */
  lemma BlankLineDropped(a: string, b: string)
    requires '\n' !in a && '\n' !in b && !IsBlank(a) && !IsBlank(b)
    ensures Paragraphs(a + "\n\n" + b) == [a, b]
  {
    var nb := "\n" + b;
    assert a + "\n" + nb == a + "\n\n" + b;
    ParagraphsAppend(a, nb);
    assert Paragraphs(nb) == [b] by {
      var e: string := [];
      assert e + "\n" + b == nb;
      ParagraphsAppend(e, b);
      assert Paragraphs(e) == [] by {
        assert IsBlank(e);
        ParagraphsOfLine(e);
      }
      ParagraphsOfLine(b);
    }
    ParagraphsOfLine(a);
  }

  /**
   * Two non-blank lines separated by a single newline are two paragraphs, not
   * one joined by a space, and neither is trimmed.
   */
  lemma SingleNewlineSeparates(a: string, b: string)
    requires '\n' !in a && '\n' !in b && !IsBlank(a) && !IsBlank(b)
    ensures Paragraphs(a + "\n" + b) == [a, b]
  {
    ParagraphsAppend(a, b);
    ParagraphsOfLine(a);
    ParagraphsOfLine(b);
  }
}
