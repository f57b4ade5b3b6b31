/**
 * The PDF converter `convertToPDF` (src/utils/conversionUtils.ts:5-83). The
 * rasterizer (html2canvas) and the PDF writer (jsPDF) are foreign: the canvas
 * size, the page size and the step that throws, if any, are inputs, and the PDF
 * is the list of image draws, one per page. Lengths are exact reals, not doubles.
 */
module PdfConversion {
  import opened Wrappers
  import opened Types
  import opened ConversionProgress

  /** One `addImage` call: the full image drawn at (x, y) with the given size, in mm. */
  datatype Draw = Draw(x: real, y: real, width: real, height: real)

  /** The PDF as the pages it holds, each with the one image draw placed on it. */
  datatype PdfDocument = PdfDocument(pages: seq<Draw>)

  /** The bitmap html2canvas produced, in pixels. */
  datatype Canvas = Canvas(width: real, height: real)

  /** What is put into the off-screen container before rasterizing. */
  datatype ContainerContent = Markup(html: string) | Preformatted(text: string)

  /** The step of the conversion that throws, if any. */
  datatype PdfFault =
    | NoFault
    | RasterFault(thrown: Thrown)    // html2canvas rejects
    | AssemblyFault(thrown: Thrown)  // jsPDF construction or addImage throws
    | OutputFault(thrown: Thrown)    // pdf.output throws

  /** The smallest integer not below `x`. */
  function Ceil(x: real): (c: int)
    ensures (c - 1) as real < x <= c as real
  {
    -((-x).Floor)
  }

  /**
   * Pages needed for an image of height `imgHeight` when each page shows
   * `printable` of it: max(1, ceil(imgHeight / printable)).
   */
  function PageCount(imgHeight: real, printable: real): (n: nat)
    requires printable > 0.0
    ensures n >= 1
    ensures imgHeight > 0.0 ==> (n - 1) as real * printable < imgHeight <= n as real * printable
    ensures imgHeight <= printable ==> n == 1
  {
    if imgHeight <= 0.0 then 1
    else
      var c := Ceil(imgHeight / printable);
      CeilScaled(imgHeight, printable, c);
      c
  }

  lemma CeilScaled(h: real, p: real, c: int)
    requires p > 0.0 && h > 0.0 && c == Ceil(h / p)
    ensures c >= 1
    ensures (c - 1) as real * p < h <= c as real * p
    ensures h <= p ==> c == 1
  {
    var q := h / p;
    assert q * p == h;
    assert (c - 1) as real < q <= c as real;
    assert (c - 1) as real * p < q * p;
    assert q * p <= c as real * p;
  }

  /** The image height in mm once scaled to the printable width, keeping the aspect ratio. */
  function ScaledHeight(canvas: Canvas, imgWidth: real): (h: real)
    requires canvas.width > 0.0
    ensures canvas.height >= 0.0 && imgWidth >= 0.0 ==> h >= 0.0
    ensures h * canvas.width == canvas.height * imgWidth
  {
    (canvas.height * imgWidth) / canvas.width
  }

  /** Where page `k` (0 for the first) draws the image: shifted up by `k` printable heights. */
  function PagePlacement(k: nat, pdfWidth: real, pdfHeight: real, imgHeight: real): Draw
  {
    Draw(10.0, 10.0 - k as real * (pdfHeight - 20.0), pdfWidth - 20.0, imgHeight)
  }

  /**
   * The pagination loop: the first page, then one more page for as long as part
   * of the image has not been shown. Terminates because the printable height is
   * positive.
   */
  method Paginate(pdfWidth: real, pdfHeight: real, imgHeight: real) returns (pages: seq<Draw>)
    requires pdfHeight - 20.0 > 0.0
    ensures |pages| == PageCount(imgHeight, pdfHeight - 20.0)
    ensures forall k :: 0 <= k < |pages| ==> pages[k] == PagePlacement(k, pdfWidth, pdfHeight, imgHeight)
  {
    var imgWidth := pdfWidth - 20.0;
    var printable := pdfHeight - 20.0;
    ghost var total := PageCount(imgHeight, printable);
    var heightLeft := imgHeight;
    var position := 10.0;
    pages := [Draw(10.0, position, imgWidth, imgHeight)];
    heightLeft := heightLeft - printable;
    while heightLeft > 0.0
      invariant 1 <= |pages| <= total
      invariant heightLeft == imgHeight - |pages| as real * printable
      invariant |pages| == 1 || (|pages| - 1) as real * printable < imgHeight
      invariant forall k :: 0 <= k < |pages| ==> pages[k] == PagePlacement(k, pdfWidth, pdfHeight, imgHeight)
      decreases total - |pages|
    {
      MoreToShow(|pages|, total, printable, imgHeight);
      position := heightLeft - imgHeight + 10.0;
      pages := pages + [Draw(10.0, position, imgWidth, imgHeight)];
      heightLeft := heightLeft - printable;
    }
    if |pages| < total {
      MoreToShow(|pages|, total, printable, imgHeight);
      assert false;
    }
  }

  lemma MulMonotone(a: real, b: real, p: real)
    requires a <= b && p > 0.0
    ensures a * p <= b * p
  {
    assert (b - a) * p >= 0.0;
  }

  /** `t` pages of height `p` are the fewest that cover `h`: fewer pages leave part of it over. */
  lemma CoveringCount(n: int, t: int, p: real, h: real)
    requires p > 0.0 && n >= 1 && t >= 1
    requires (t - 1) as real * p < h <= t as real * p
    ensures n < t <==> n as real * p < h
  {
    var a, b := n as real, (t - 1) as real;
    if n < t {
      assert a <= b;
      MulMonotone(a, b, p);
    } else {
      var c := t as real;
      assert c <= a;
      MulMonotone(c, a, p);
    }
  }

  /** Fewer pages than `PageCount` leave part of the image unshown, and vice versa. */
  lemma MoreToShow(n: nat, total: nat, printable: real, imgHeight: real)
    requires printable > 0.0 && total == PageCount(imgHeight, printable) && n >= 1
    ensures n < total <==> n as real * printable < imgHeight
  {
    if imgHeight > 0.0 {
      CoveringCount(n, total, printable, imgHeight);
    } else {
      MulMonotone(1.0, n as real, printable);
    }
  }

  /** The container holds the raw markup for `text/html` files and a `<pre>` block otherwise. */
  function ContainerFor(file: UploadedFile): (c: ContainerContent)
    ensures c.Markup? <==> file.mimeType == "text/html"
    ensures c.Markup? ==> c.html == file.content
    ensures c.Preformatted? ==> c.text == file.content
  {
    if file.mimeType == "text/html" then Markup(file.content) else Preformatted(file.content)
  }

  /** The progress a conversion reports before it finishes or throws. */
  function PdfProgress(fault: PdfFault): (reports: seq<int>)
    ensures WellFormed(reports)
    ensures |reports| <= |PdfCheckpoints| && reports == PdfCheckpoints[..|reports|]
    ensures |reports| >= 2
    ensures reports[|reports| - 1] == 100 <==> fault.NoFault?
  {
    PdfCheckpointsWellFormed();
    var n := match fault
      case RasterFault(_) => 2
      case AssemblyFault(_) => 3
      case OutputFault(_) => 4
      case NoFault => 5;
    PrefixWellFormed(PdfCheckpoints, n);
    PdfCheckpoints[..n]
  }

  lemma PdfCheckpointsWellFormed()
    ensures WellFormed(PdfCheckpoints)
  {
  }

  /** The page body of the browser document, as the number of elements attached to it. */
  class DocumentBody {
    var childCount: nat

    constructor (children: nat)
      ensures childCount == children
    {
      childCount := children;
    }

    method AppendChild()
      modifies this
      ensures childCount == old(childCount) + 1
    {
      childCount := childCount + 1;
    }

    method RemoveChild()
      requires childCount > 0
      modifies this
      ensures childCount == old(childCount) - 1
    {
      childCount := childCount - 1;
    }
  }

  /**
   * `convertToPDF`. The container is attached before the `try` and removed in its
   * `finally`, so the body has as many children afterwards as before, whichever
   * step throws. A thrown value is passed on unchanged.
   */
  method ConvertToPdf(body: DocumentBody, file: UploadedFile, canvas: Canvas,
                      pdfWidth: real, pdfHeight: real, fault: PdfFault)
    returns (progress: seq<int>, result: Result<PdfDocument, Thrown>)
    requires canvas.width > 0.0
    requires pdfHeight - 20.0 > 0.0
    modifies body
    ensures body.childCount == old(body.childCount)
    ensures progress == PdfProgress(fault)
    ensures result.Success? <==> fault.NoFault?
    ensures !fault.NoFault? ==> result == Failure(fault.thrown)
    ensures result.Success? ==>
      var imgHeight := ScaledHeight(canvas, pdfWidth - 20.0);
      && |result.value.pages| == PageCount(imgHeight, pdfHeight - 20.0)
      && forall k :: 0 <= k < |result.value.pages| ==>
           result.value.pages[k] == PagePlacement(k, pdfWidth, pdfHeight, imgHeight)
  {
    progress := [10];
    var container := ContainerFor(file);
    body.AppendChild();
    progress := progress + [30];
    // try
    if fault.RasterFault? {
      result := Failure(fault.thrown);
    } else {
      progress := progress + [60];
      if fault.AssemblyFault? {
        result := Failure(fault.thrown);
      } else {
        var imgHeight := ScaledHeight(canvas, pdfWidth - 20.0);
        var pages := Paginate(pdfWidth, pdfHeight, imgHeight);
        progress := progress + [90];
        if fault.OutputFault? {
          result := Failure(fault.thrown);
        } else {
          progress := progress + [100];
          result := Success(PdfDocument(pages));
        }
      }
    }
    // finally
    body.RemoveChild();
  }
}
