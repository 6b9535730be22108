/**
 * generatePDF (itinerary-builder/src/utils/pdfGenerator.ts, lines 87-170):
 * render the document, inline its images, rasterise it, slice it into pages
 * and save it under a name made from the destination and the traveler.
 *
 * The browser is the parameter `host`: how the document becomes markup,
 * how an image URL loads, whether `new RegExp(url, 'g')` accepts a URL as a
 * pattern, and how markup becomes a canvas (None when html2canvas rejects).
 */
module PdfExport {
  import opened Wrappers
  import opened Types
  import Template
  import ImageInliner
  import ImageSubstitution
  import Pagination

  datatype Host = Host(
    markup: Template.Document -> string,
    load: string -> ImageInliner.LoadOutcome,
    isPattern: string -> bool,
    rasterize: string -> Option<Pagination.Canvas>)

  datatype PdfFile = PdfFile(name: string, pages: seq<Pagination.PageSlice>)

  /** A saved file, or the rejection generatePDF passes to its caller. */
  datatype ExportResult = Saved(file: PdfFile) | Failed

  const Infix: string := "-Itinerary-"
  const Extension: string := ".pdf"

  /** The saved file's name: destination, "-Itinerary-", traveler name, ".pdf", with fallbacks for empty fields. */
  function FileName(data: ItineraryData): (name: string)
    ensures var d := Template.OrElse(data.destination, "Itinerary");
            var t := Template.OrElse(data.travelerName, "Traveler");
            && |name| == |d| + |Infix| + |t| + |Extension|
            && name[..|d|] == d
            && name[|d|..|d| + |Infix|] == Infix
            && name[|d| + |Infix|..|name| - |Extension|] == t
            && name[|name| - |Extension|..] == Extension
  {
    Template.OrElse(data.destination, "Itinerary") + Infix + Template.OrElse(data.travelerName, "Traveler") + Extension
  }

  /** Two itineraries share a file name when they share destination and traveler name. */
  lemma FileNameDependsOnlyOnNames(a: ItineraryData, b: ItineraryData)
    requires a.destination == b.destination && a.travelerName == b.travelerName
    ensures FileName(a) == FileName(b)
  {
  }

  /**
   * The markup after image inlining: each tag's http source replaced by its
   * own resolution (the corrected processImages).
   */
  function Inlined(data: ItineraryData, host: Host): (content: string)
    ensures ImageInliner.ImageUrls(host.markup(Template.Render(data))) == [] ==> content == host.markup(Template.Render(data))
  {
    var raw := host.markup(Template.Render(data));
    if ImageInliner.ImageUrls(raw) == [] then
      ImageSubstitution.InlinedWithoutHttp(raw, host.load);
      ImageSubstitution.Inlined(raw, host.load)
    else
      ImageSubstitution.Inlined(raw, host.load)
  }

  /**
   * A collected image URL that is not a valid pattern: processImages throws
   * on it before the markup is rasterised.
   */
  predicate RejectedUrl(data: ItineraryData, host: Host) {
    exists u :: u in ImageInliner.ImageUrls(host.markup(Template.Render(data))) && !host.isPattern(u)
  }

  /**
   * What generatePDF produces: Failed when image processing throws or
   * rasterising fails, else the paginated file.
   */
  function Outcome(data: ItineraryData, host: Host): (r: ExportResult)
    ensures RejectedUrl(data, host) ==> r == Failed
    ensures host.rasterize(Inlined(data, host)).None? ==> r == Failed
    ensures r.Saved? ==> forall u :: u in ImageInliner.ImageUrls(host.markup(Template.Render(data))) ==> host.isPattern(u)
    ensures r.Saved? ==> r.file.name == FileName(data) && |r.file.pages| >= 1
    ensures r.Saved? ==> r.file.pages[|r.file.pages| - 1].footer
    ensures r.Saved? ==> forall k :: 0 <= k < |r.file.pages| - 1 ==> !r.file.pages[k].footer
  {
    if RejectedUrl(data, host) then Failed
    else match host.rasterize(Inlined(data, host))
    case None => Failed
    case Some(canvas) =>
      if canvas.width == 0 then Failed
      else
        var h := Pagination.ImgHeight(canvas);
        Pagination.FooterOnlyOnLastPage(h);
        Saved(PdfFile(FileName(data), Pagination.Layout(h)))
  }

  method GeneratePdf(data: ItineraryData, host: Host) returns (r: ExportResult)
    ensures r == Outcome(data, host)
  {
    var rawContent := host.markup(Template.Render(data));
    var imageUrls := ImageInliner.CollectImageUrls(rawContent);
    if exists u :: u in imageUrls && !host.isPattern(u) {
      return Failed;
    }
    var processedContent := ImageSubstitution.InlineImages(rawContent, host.load);
    var rendered := host.rasterize(processedContent);
    if rendered.None? {
      return Failed;
    }
    var canvas := rendered.value;
    if canvas.width == 0 {
      return Failed;
    }
    var imgHeight := Pagination.ImgHeight(canvas);
    var totalPages, pages := Pagination.Paginate(imgHeight);
    r := Saved(PdfFile(FileName(data), pages));
  }
}
