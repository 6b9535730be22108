/**
 * Slicing the one tall rasterised image into A4 pages
 * (itinerary-builder/src/utils/pdfGenerator.ts, generatePDF, lines 126-162).
 *
 * The image is scaled to the page width, 210 mm; its scaled height
 * `imgHeight` is an exact real here. Every page shows the whole image,
 * shifted up by a whole number of page heights, and only the last page
 * carries the company footer.
 */
module Pagination {

  const ImgWidth: real := 210.0
  const PageHeight: real := 297.0

  /** The canvas html2canvas returns; the container is 210 mm wide, so its width is never zero. */
  datatype Canvas = Canvas(width: nat, height: nat)

  /** One emitted page: where the image is placed on it, and whether the footer is stamped on it. */
  datatype PageSlice = PageSlice(offset: real, footer: bool)

  /** The image height in millimetres once the canvas is scaled to the page width. */
  function ImgHeight(c: Canvas): (h: real)
    requires c.width > 0
    ensures h >= 0.0
    ensures h * (c.width as real) == (c.height as real) * ImgWidth
  {
    (c.height as real * ImgWidth) / (c.width as real)
  }

  /**
   * The number of pages, in closed form: one page, plus one more for every
   * whole page height the image still has left at or above zero. An image
   * exactly N page heights tall therefore gets N + 1 pages.
   */
  function PageCount(imgHeight: real): (n: nat)
    ensures n >= 1
    ensures imgHeight >= 0.0 ==> ((n - 1) as real) * PageHeight <= imgHeight < (n as real) * PageHeight
  {
    if imgHeight < 0.0 then 1 else (imgHeight / PageHeight).Floor + 1
  }

  /** The pages the engine should emit: page k shifted up by k page heights, the footer on the last. */
  function Layout(imgHeight: real): (pages: seq<PageSlice>)
    ensures |pages| == PageCount(imgHeight)
  {
    var n := PageCount(imgHeight);
    seq(n, k requires 0 <= k < n => PageSlice(-(k as real) * PageHeight, k == n - 1))
  }

  /**
   * The rule both loops of the source test: after m >= 1 pages, the height
   * left is imgHeight - m * 297, and another page follows exactly when that
   * is still at or above zero.
   */
  lemma MorePagesIff(imgHeight: real, m: nat)
    requires m >= 1
    ensures imgHeight - (m as real) * PageHeight >= 0.0 <==> m < PageCount(imgHeight)
  {
    if imgHeight >= 0.0 {
      var q := imgHeight / PageHeight;
      assert q * PageHeight == imgHeight;
      if imgHeight - (m as real) * PageHeight >= 0.0 {
        assert (m as real) <= q;
        assert m <= q.Floor;
      } else {
        assert q < (m as real);
        assert q.Floor < m;
      }
    }
  }

  /**
   * The whole image fits: the pages emitted before the last one cover less
   * than its height, and all of them together cover strictly more.
   */
  lemma {:induction false} PagesCoverImage(imgHeight: real)
    requires imgHeight >= 0.0
    ensures ((PageCount(imgHeight) - 1) as real) * PageHeight <= imgHeight
    ensures imgHeight < (PageCount(imgHeight) as real) * PageHeight
  {
    var n := PageCount(imgHeight);
    if n > 1 {
      MorePagesIff(imgHeight, n - 1);
    }
    MorePagesIff(imgHeight, n);
  }

  /** The source's quirk: an image exactly n page heights tall gets n + 1 pages, the last one blank. */
  lemma {:induction false} ExactMultipleGetsExtraPage(n: nat)
    ensures PageCount((n as real) * PageHeight) == n + 1
  {
    var h := (n as real) * PageHeight;
    MorePagesIff(h, n + 1);
    if n >= 1 {
      MorePagesIff(h, n);
    }
  }

  /** The footer is stamped on exactly one page, the last one. */
  lemma FooterOnlyOnLastPage(imgHeight: real)
    ensures |Layout(imgHeight)| >= 1
    ensures Layout(imgHeight)[|Layout(imgHeight)| - 1].footer
    ensures forall k :: 0 <= k < |Layout(imgHeight)| - 1 ==> !Layout(imgHeight)[k].footer
  {
  }

  /**
   * The two loops of generatePDF: the first counts the pages, the second
   * emits them, stamping the footer where the page number equals the count.
   */
  method Paginate(imgHeight: real) returns (totalPages: nat, pages: seq<PageSlice>)
    ensures totalPages == PageCount(imgHeight)
    ensures pages == Layout(imgHeight)
  {
    // One page, plus one for every full page height still below it.
    totalPages := 1;
    var tempHeightLeft := imgHeight - PageHeight;
    while tempHeightLeft >= 0.0
      invariant 1 <= totalPages <= PageCount(imgHeight)
      invariant tempHeightLeft == imgHeight - (totalPages as real) * PageHeight
      decreases PageCount(imgHeight) - totalPages
    {
      MorePagesIff(imgHeight, totalPages);
      totalPages := totalPages + 1;
      tempHeightLeft := tempHeightLeft - PageHeight;
    }
    MorePagesIff(imgHeight, totalPages);

    // Emit the first page, then one page per remaining page height.
    var heightLeft := imgHeight;
    var position := 0.0;
    var pageNumber := 1;
    pages := [PageSlice(position, pageNumber == totalPages)];
    heightLeft := heightLeft - PageHeight;
    pageNumber := pageNumber + 1;
    while heightLeft >= 0.0
      invariant 1 <= |pages| <= totalPages
      invariant pageNumber == |pages| + 1
      invariant heightLeft == imgHeight - (|pages| as real) * PageHeight
      invariant pages == Layout(imgHeight)[..|pages|]
      decreases totalPages - |pages|
    {
      MorePagesIff(imgHeight, |pages|);
      position := heightLeft - imgHeight;
      pages := pages + [PageSlice(position, pageNumber == totalPages)];
      heightLeft := heightLeft - PageHeight;
      pageNumber := pageNumber + 1;
    }
    MorePagesIff(imgHeight, |pages|);
  }
}
