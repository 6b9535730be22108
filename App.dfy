/**
 * The application shell (itinerary-builder/src/App.tsx): the submitted
 * itinerary, whether the preview is showing, and whether a PDF is being
 * generated. Saved files and alert messages are recorded as lists.
 */
module App {
  import opened Wrappers
  import opened Types
  import PdfExport

  const ErrorAlert: string := "Error generating PDF. Please try again."

  class AppState {
    var itineraryData: Option<ItineraryData>
    var showPreview: bool
    var isGeneratingPDF: bool
    /** The files `pdf.save` has downloaded, oldest first. */
    var downloads: seq<PdfExport.PdfFile>
    /** The messages `alert` has shown, oldest first. */
    var alerts: seq<string>

    constructor ()
      ensures itineraryData.None? && !showPreview && !isGeneratingPDF
      ensures downloads == [] && alerts == []
    {
      itineraryData := None;
      showPreview := false;
      isGeneratingPDF := false;
      downloads := [];
      alerts := [];
    }

    /** onSubmit: keep the submitted itinerary and switch to the preview. */
    method OnSubmit(data: ItineraryData)
      modifies this
      ensures itineraryData == Some(data) && showPreview
      ensures isGeneratingPDF == old(isGeneratingPDF) && downloads == old(downloads) && alerts == old(alerts)
    {
      itineraryData := Some(data);
      showPreview := true;
    }

    /**
     * handleGeneratePDF: nothing without a submitted itinerary; otherwise the
     * busy flag is raised, the export runs, a failure is reported with an
     * alert instead of being rethrown, and the flag is lowered either way.
     */
    method HandleGeneratePdf(host: PdfExport.Host)
      modifies this
      ensures old(itineraryData).None? ==>
                itineraryData == old(itineraryData) && showPreview == old(showPreview) &&
                isGeneratingPDF == old(isGeneratingPDF) && downloads == old(downloads) && alerts == old(alerts)
      ensures old(itineraryData).Some? ==> !isGeneratingPDF
      ensures itineraryData == old(itineraryData) && showPreview == old(showPreview)
      ensures old(itineraryData).Some? && PdfExport.Outcome(old(itineraryData).value, host).Saved? ==>
                downloads == old(downloads) + [PdfExport.Outcome(old(itineraryData).value, host).file] && alerts == old(alerts)
      ensures old(itineraryData).Some? && PdfExport.Outcome(old(itineraryData).value, host).Failed? ==>
                downloads == old(downloads) && alerts == old(alerts) + [ErrorAlert]
    {
      if itineraryData.None? {
        return;
      }
      isGeneratingPDF := true;
      var result := PdfExport.GeneratePdf(itineraryData.value, host);
      match result {
        case Saved(file) => downloads := downloads + [file];
        case Failed => alerts := alerts + [ErrorAlert];
      }
      isGeneratingPDF := false;
    }

    /** handleBackToForm: hide the preview; the submitted itinerary stays. */
    method HandleBackToForm()
      modifies this
      ensures !showPreview
      ensures itineraryData == old(itineraryData) && isGeneratingPDF == old(isGeneratingPDF)
      ensures downloads == old(downloads) && alerts == old(alerts)
    {
      showPreview := false;
    }
  }
}
