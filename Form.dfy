/**
 * The form state every editor reads and writes (react-hook-form's `useForm`
 * in itinerary-builder/src/App.tsx): one mutable itinerary record. The
 * editors change it through `setValue`, `append` and `remove`, which the
 * model writes as methods that reassign `data`.
 */
module Form {
  import opened Types

  /** The values the form starts with. */
  function DefaultValues(): (d: ItineraryData)
    ensures d.totalTravelers == d.adults + d.children + d.infants
    ensures d.adults == 2 && d.children == 0 && d.infants == 0
    ensures d.days == [] && d.flights == [] && d.hotels == [] && d.installments == []
    ensures d.importantNotes == [] && d.scopeOfService == [] && d.inclusions == [] && d.activities == []
  {
    ItineraryData(
      travelerName := "", destination := "", duration := "",
      departureFrom := "", departureTo := "",
      adults := 2, children := 0, infants := 0, totalTravelers := 2,
      days := [], flights := [], hotels := [],
      installments := [], importantNotes := [], scopeOfService := [],
      inclusions := [], activities := [],
      totalAmount := 95000.0, currency := "INR", tds := "Not Applicable",
      visaType := "E-Visa", visaProcessingDays := "5-7 Days")
  }

  class FormStore {
    var data: ItineraryData

    constructor ()
      ensures data == DefaultValues()
    {
      data := DefaultValues();
    }
  }
}
