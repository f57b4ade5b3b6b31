/**
 * Progress reporting shared by both converters: each reports a fixed list of
 * percentages through its `onProgress` callback (src/utils/conversionUtils.ts:10,
 * 37, 49, 74, 77 for PDF; 171, 174, 179, 184 for DOCX).
 */
module ConversionProgress {

  /** Every later report is larger than every earlier one. */
  predicate StrictlyIncreasing(reports: seq<int>)
  {
    forall i, j :: 0 <= i < j < |reports| ==> reports[i] < reports[j]
  }

  /** Every report is a percentage. */
  predicate Percentages(reports: seq<int>)
  {
    forall i :: 0 <= i < |reports| ==> 0 <= reports[i] <= 100
  }

  /** The checkpoints of a PDF conversion that runs to the end. */
  const PdfCheckpoints: seq<int> := [10, 30, 60, 90, 100]

  /** The checkpoints of a DOCX conversion that runs to the end. */
  const DocxCheckpoints: seq<int> := [10, 30, 60, 100]

  /** A well-formed report list: increasing percentages. */
  predicate WellFormed(reports: seq<int>)
  {
    StrictlyIncreasing(reports) && Percentages(reports)
  }

  /** Any prefix of a well-formed report list is well-formed: a failure midway still reports sensibly. */
  lemma PrefixWellFormed(reports: seq<int>, n: nat)
    requires WellFormed(reports) && n <= |reports|
    ensures WellFormed(reports[..n])
  {
  }
}
