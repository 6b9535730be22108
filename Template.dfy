/**
 * The printable document that generatePDFContent fills in
 * (itinerary-builder/src/utils/pdfGenerator.ts, lines 197-1009), as a
 * structured value: the header, the travel-details row, one block per day,
 * the flight and hotel rows, and the sections whose content is fixed. The
 * CSS and the literal markup around these values are not part of the model.
 */
module Template {
  import opened Wrappers
  import opened Types

  /** `a || b` on strings: the empty string is falsy. */
  function OrElse(a: string, b: string): (r: string)
    ensures a != "" ==> r == a
    ensures a == "" ==> r == b
  {
    if a != "" then a else b
  }

  /** The day's image when it has a non-empty URL (the truthiness test on `day.imageUrl`). */
  function ShownImage(d: DayData): (r: Option<string>)
    ensures r.Some? <==> d.imageUrl.Some? && d.imageUrl.value != ""
    ensures r.Some? ==> r == d.imageUrl
  {
    if d.imageUrl.Some? && d.imageUrl.value != "" then d.imageUrl else None
  }

  datatype TravelRow = TravelRow(
    departureFrom: string,
    departure: string,     // the "Departure" cell shows departureTo, or a fixed date
    arrival: string,       // so does the "Arrival" cell, with another fixed date
    destination: string,
    travelers: nat)

  /** One line of a day's timeline: "title - description". */
  datatype TimelineEntry = TimelineEntry(slot: TimeSlot, title: string, description: string)

  datatype DayBlock = DayBlock(dayNumber: int, date: string, image: Option<string>, timeline: seq<TimelineEntry>)

  datatype FlightRow = FlightRow(date: string, airline: string, flightNumber: string, from: string, to: string)

  datatype HotelRow = HotelRow(city: string, checkIn: string, checkOut: string, nights: int, hotelName: string)

  /** The sections whose rows are written into the template and read nothing from the itinerary. */
  datatype FixedSection = ImportantNotes | ScopeOfService | InclusionSummary | ActivityTable | InstallmentTable | VisaDetails

  datatype Document = Document(
    greetingName: string,
    destination: string,
    totalDays: nat,
    totalNights: int,
    travel: TravelRow,
    dayBlocks: seq<DayBlock>,
    flightRows: seq<FlightRow>,
    hotelRows: seq<HotelRow>,
    paymentPax: nat,                  // "(For N Pax ...)" in the payment summary
    fixedSections: seq<FixedSection>)

  const FixedSections: seq<FixedSection> :=
    [ImportantNotes, ScopeOfService, InclusionSummary, ActivityTable, InstallmentTable, VisaDetails]

  /** The sample flight shown four times when the itinerary has no flights. */
  const SampleFlight: FlightRow :=
    FlightRow("Thu 19 Jun 24", "Air India", "AI 120", "Delhi (DEL)", "Singapore (SIN)")

  /** The five sample hotel rows shown when the itinerary has no hotels. */
  const SampleHotels: seq<HotelRow> := [
    HotelRow("Singapore", "19/11/2024", "20/11/2024", 1, "Hotel Grand Central"),
    HotelRow("Singapore", "20/11/2024", "21/11/2024", 1, "Hotel Grand Central"),
    HotelRow("Singapore", "21/11/2024", "22/11/2024", 1, "Parkroyal Collection Pickering"),
    HotelRow("Singapore", "22/11/2024", "23/11/2024", 1, "Parkroyal Collection Pickering"),
    HotelRow("Singapore", "23/11/2024", "24/11/2024", 1, "Parkroyal Collection Pickering")]

  function Block(d: DayData): DayBlock {
    DayBlock(d.dayNumber, d.date, ShownImage(d),
      [TimelineEntry(Morning, d.morning.title, d.morning.description),
       TimelineEntry(Afternoon, d.afternoon.title, d.afternoon.description),
       TimelineEntry(Evening, d.evening.title, d.evening.description)])
  }

  function FlightLine(f: FlightData): FlightRow {
    FlightRow(f.date, f.airline, f.flightNumber, f.from, f.to)
  }

  function HotelLine(h: HotelData): HotelRow {
    HotelRow(h.city, h.checkIn, h.checkOut, h.nights, h.hotelName)
  }

  /** `data.totalTravelers || 2` */
  function ShownTravelers(data: ItineraryData): (n: nat)
    ensures n > 0
    ensures data.totalTravelers > 0 ==> n == data.totalTravelers
  {
    if data.totalTravelers != 0 then data.totalTravelers else 2
  }

  /**
   * generatePDFContent, as the values the document shows. The header never
   * shows an empty name, every table has at least one row, and a trip of n
   * days is announced as n days and n - 1 nights.
   */
  function Render(data: ItineraryData): (r: Document)
    ensures r.greetingName != "" && r.destination != "" && r.travel.departureFrom != ""
    ensures r.totalDays == |data.days| && r.totalNights == r.totalDays - 1
    ensures |r.dayBlocks| == |data.days|
    ensures |r.flightRows| > 0 && |r.hotelRows| > 0
    ensures r.travel.travelers > 0 && r.paymentPax == r.travel.travelers
  {
    var totalDays := |data.days|;
    Document(
      greetingName := OrElse(data.travelerName, "Rahul"),
      destination := OrElse(data.destination, "Singapore"),
      totalDays := totalDays,
      totalNights := totalDays - 1,
      travel := TravelRow(
        OrElse(data.departureFrom, "Mumbai"),
        OrElse(data.departureTo, "19-Nov-2024"),
        OrElse(data.departureTo, "22-Nov-2024"),
        OrElse(data.destination, "Singapore"),
        ShownTravelers(data)),
      dayBlocks := seq(|data.days|, i requires 0 <= i < |data.days| => Block(data.days[i])),
      flightRows :=
        if |data.flights| > 0 then seq(|data.flights|, i requires 0 <= i < |data.flights| => FlightLine(data.flights[i]))
        else [SampleFlight, SampleFlight, SampleFlight, SampleFlight],
      hotelRows :=
        if |data.hotels| > 0 then seq(|data.hotels|, i requires 0 <= i < |data.hotels| => HotelLine(data.hotels[i]))
        else SampleHotels,
      paymentPax := ShownTravelers(data),
      fixedSections := FixedSections)
  }

  /** The header falls back to fixed sample values for an empty name, destination or origin. */
  lemma HeaderFallbacks(data: ItineraryData)
    ensures Render(data).greetingName == (if data.travelerName == "" then "Rahul" else data.travelerName)
    ensures Render(data).destination == (if data.destination == "" then "Singapore" else data.destination)
    ensures Render(data).travel.departureFrom == (if data.departureFrom == "" then "Mumbai" else data.departureFrom)
    ensures Render(data).travel.destination == Render(data).destination
  {
  }

  /** Days and nights come from the number of days; the travelers cell shows the total, or 2 when it is 0. */
  lemma RenderedCounts(data: ItineraryData)
    ensures Render(data).totalDays == |data.days|
    ensures Render(data).totalNights == |data.days| - 1
    ensures Render(data).travel.travelers == (if data.totalTravelers == 0 then 2 else data.totalTravelers)
    ensures Render(data).paymentPax == Render(data).travel.travelers
  {
  }

  /** Days appear in stored order, each with its image only when its URL is non-empty, slots morning to evening. */
  lemma DaysInStoredOrder(data: ItineraryData)
    ensures |Render(data).dayBlocks| == |data.days|
    ensures forall i :: 0 <= i < |data.days| ==>
              && Render(data).dayBlocks[i].dayNumber == data.days[i].dayNumber
              && Render(data).dayBlocks[i].date == data.days[i].date
              && (Render(data).dayBlocks[i].image.Some? <==> data.days[i].imageUrl.Some? && data.days[i].imageUrl.value != "")
              && |Render(data).dayBlocks[i].timeline| == 3
              && forall k :: 0 <= k < 3 ==>
                   && Render(data).dayBlocks[i].timeline[k].slot == SlotOrder[k]
                   && Render(data).dayBlocks[i].timeline[k].title == data.days[i].Slot(SlotOrder[k]).title
                   && Render(data).dayBlocks[i].timeline[k].description == data.days[i].Slot(SlotOrder[k]).description
  {
  }

  /** Flights: one row per flight in order, or exactly four sample rows when there are none. */
  lemma FlightRows(data: ItineraryData)
    ensures data.flights == [] ==> Render(data).flightRows == [SampleFlight, SampleFlight, SampleFlight, SampleFlight]
    ensures data.flights != [] ==> |Render(data).flightRows| == |data.flights|
    ensures data.flights != [] ==> forall i :: 0 <= i < |data.flights| ==>
              Render(data).flightRows[i] == FlightRow(data.flights[i].date, data.flights[i].airline,
                                                      data.flights[i].flightNumber, data.flights[i].from, data.flights[i].to)
  {
  }

  /** Hotels: one row per hotel in order, or exactly five sample rows when there are none. */
  lemma HotelRows(data: ItineraryData)
    ensures data.hotels == [] ==> |Render(data).hotelRows| == 5 && Render(data).hotelRows == SampleHotels
    ensures data.hotels != [] ==> |Render(data).hotelRows| == |data.hotels|
    ensures data.hotels != [] ==> forall i :: 0 <= i < |data.hotels| ==>
              Render(data).hotelRows[i] == HotelRow(data.hotels[i].city, data.hotels[i].checkIn,
                                                    data.hotels[i].checkOut, data.hotels[i].nights, data.hotels[i].hotelName)
  {
  }

  /**
   * The notes, services, inclusions, activities, installments, total amount,
   * currency, TDS and visa fields never reach the document.
   */
  lemma IgnoredFields(data: ItineraryData, other: ItineraryData)
    requires other == data.(importantNotes := other.importantNotes, scopeOfService := other.scopeOfService,
                            inclusions := other.inclusions, activities := other.activities,
                            installments := other.installments, totalAmount := other.totalAmount,
                            currency := other.currency, tds := other.tds,
                            visaType := other.visaType, visaProcessingDays := other.visaProcessingDays)
    ensures Render(other) == Render(data)
  {
  }
}
