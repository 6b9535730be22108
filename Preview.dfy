/**
 * The on-screen preview (itinerary-builder/src/components/PDFPreview.tsx) as
 * the values it displays: zero-padded counts, the per-person amount, the
 * sections shown only for non-empty lists, the days and the visa block.
 */
module Preview {
  import opened Wrappers
  import opened Types
  import JsMath

  predicate IsDigit(c: char) {
    '0' <= c <= '9'
  }

  function DigitChar(d: nat): (c: char)
    requires d < 10
    ensures IsDigit(c) && (c as int) - ('0' as int) == d
  {
    ((d + '0' as int) as char)
  }

  /** `n.toString()` for a natural number: its decimal digits, without leading zeros. */
  function DecimalString(n: nat): (s: string)
    ensures |s| >= 1
    ensures forall i :: 0 <= i < |s| ==> IsDigit(s[i])
    ensures n >= 10 ==> |s| >= 2
    ensures |s| > 1 ==> s[0] != '0'
  {
    if n < 10 then [DigitChar(n)] else DecimalString(n / 10) + [DigitChar(n % 10)]
  }

  function DigitValue(c: char): (d: nat)
    requires IsDigit(c)
    ensures d < 10
  {
    (c as int) - ('0' as int)
  }

  /** The value of a string of decimal digits (leading zeros allowed). */
  function DecimalValue(s: string): nat
    requires forall i :: 0 <= i < |s| ==> IsDigit(s[i])
  {
    if s == [] then 0 else DecimalValue(s[..|s| - 1]) * 10 + DigitValue(s[|s| - 1])
  }

  /** toString loses nothing: reading the digits back gives the number. */
  lemma {:induction false} DecimalRoundTrip(n: nat)
    ensures DecimalValue(DecimalString(n)) == n
  {
    if n >= 10 {
      DecimalRoundTrip(n / 10);
      var s := DecimalString(n);
      assert s[..|s| - 1] == DecimalString(n / 10);
    }
  }

  /** A leading zero does not change a digit string's value. */
  lemma {:induction false} LeadingZero(s: string)
    requires forall i :: 0 <= i < |s| ==> IsDigit(s[i])
    ensures DecimalValue("0" + s) == DecimalValue(s)
    decreases |s|
  {
    if s != [] {
      var init := s[..|s| - 1];
      LeadingZero(init);
      assert ("0" + s)[..|"0" + s| - 1] == "0" + init;
    }
  }

  /** `text.padStart(2, '0')`: zeros in front up to two characters; longer text is left alone. */
  function PadStart2(text: string): (r: string)
    ensures |r| == if |text| < 2 then 2 else |text|
    ensures r[|r| - |text|..] == text
    ensures forall i :: 0 <= i < |r| - |text| ==> r[i] == '0'
  {
    if |text| == 0 then "00" else if |text| == 1 then "0" + text else text
  }

  /** A count as the travel bar shows it: `count.toString().padStart(2, '0')`. */
  function PaddedCount(n: nat): (r: string)
    ensures |r| >= 2
    ensures forall i :: 0 <= i < |r| ==> IsDigit(r[i])
    ensures n >= 10 ==> r == DecimalString(n)
    ensures n < 10 ==> r == ['0', DigitChar(n)]
  {
    PadStart2(DecimalString(n))
  }

  /** The padded count still reads as the count. */
  lemma PaddedCountValue(n: nat)
    ensures DecimalValue(PaddedCount(n)) == n
  {
    DecimalRoundTrip(n);
    if n < 10 {
      LeadingZero([DigitChar(n)]);
      assert PaddedCount(n) == "0" + [DigitChar(n)];
    }
  }

  /**
   * The number `Math.round(totalAmount / totalTravelers)` evaluates to: a
   * whole number, or, when there are no travelers, the division by zero's
   * Infinity (of the amount's sign) or NaN (for 0 / 0), which Math.round
   * keeps as they are.
   */
  datatype PerPersonValue = Rounded(value: int) | Infinite(positive: bool) | NotANumber

  /** `Math.round(totalAmount / totalTravelers)`, the amount per traveler. */
  function PerPerson(totalAmount: real, travelers: nat): (r: PerPersonValue)
    ensures r.Rounded? <==> travelers > 0
    ensures r.Rounded? ==> r.value as real - 0.5 <= totalAmount / travelers as real < r.value as real + 0.5
    ensures travelers == 0 ==> (r == NotANumber <==> totalAmount == 0.0)
    ensures travelers == 0 && totalAmount != 0.0 ==> r == Infinite(totalAmount > 0.0)
  {
    if travelers > 0 then Rounded(JsMath.RoundHalfUp(totalAmount / travelers as real))
    else if totalAmount == 0.0 then NotANumber
    else Infinite(totalAmount > 0.0)
  }

  /** The form's default amount for its default two travelers is 47500 each. */
  lemma DefaultPerPerson()
    ensures PerPerson(95000.0, 2) == Rounded(47500)
  {
  }

  /** One day as shown: its number, date, image when the URL is truthy, and the three slots in order. */
  datatype DayView = DayView(dayNumber: int, date: string, image: Option<string>, slots: seq<(TimeSlot, string, string)>)

  /** `Fly airline number From a To b dep - arr` under the flight's date. */
  datatype FlightLine = FlightLine(date: string, airline: string, flightNumber: string, from: string, to: string,
                                   departureTime: string, arrivalTime: string)

  datatype PaymentView = PaymentView(totalAmount: real, pax: nat, currency: string, perPerson: PerPersonValue, tds: string)

  datatype VisaView = VisaView(visaType: string, paxAdult: string, processingDays: string)

  datatype View = View(
    greeting: string,
    destination: string,
    duration: string,
    travelBar: seq<string>,            // from, to, adults, children, infants, total
    days: seq<DayView>,
    flights: Option<seq<FlightLine>>,
    hotels: Option<seq<HotelData>>,
    payment: PaymentView,
    installments: Option<seq<InstallmentData>>,
    visa: VisaView,
    generateLabel: string,
    generateEnabled: bool)

  function ShowDay(d: DayData): DayView {
    DayView(d.dayNumber, d.date,
      if d.imageUrl.Some? && d.imageUrl.value != "" then d.imageUrl else None,
      [(Morning, d.morning.title, d.morning.description),
       (Afternoon, d.afternoon.title, d.afternoon.description),
       (Evening, d.evening.title, d.evening.description)])
  }

  function ShowFlight(f: FlightData): FlightLine {
    FlightLine(f.date, f.airline, f.flightNumber, f.from, f.to, f.departureTime, f.arrivalTime)
  }

  /** A list section is rendered only when its list is non-empty (`list.length > 0 && ...`). */
  function NonEmpty<T>(xs: seq<T>): (r: Option<seq<T>>)
    ensures r.Some? <==> |xs| > 0
    ensures r.Some? ==> r.value == xs
  {
    if |xs| > 0 then Some(xs) else None
  }

  /** From, to, adults, children, infants and the total, left to right. */
  function TravelBar(data: ItineraryData): seq<string> {
    [data.departureFrom, data.departureTo, PaddedCount(data.adults), PaddedCount(data.children),
     PaddedCount(data.infants), PaddedCount(data.totalTravelers)]
  }

  function ShowDays(days: seq<DayData>): seq<DayView> {
    seq(|days|, i requires 0 <= i < |days| => ShowDay(days[i]))
  }

  /** The flight lines, or no flight section when there are no flights. */
  function ShowFlights(flights: seq<FlightData>): Option<seq<FlightLine>> {
    if |flights| > 0 then Some(seq(|flights|, i requires 0 <= i < |flights| => ShowFlight(flights[i]))) else None
  }

  /** The heading `Hi, {travelerName}!`: the name framed by a fixed salutation and an exclamation mark. */
  function Greeting(name: string): (g: string)
    ensures |g| == |name| + 5
    ensures g[..4] == "Hi, " && g[|g| - 1] == '!'
    ensures g[4..|g| - 1] == name
  {
    "Hi, " + name + "!"
  }

  /** The preview of `data` while `isGeneratingPDF` has the given value. */
  function Render(data: ItineraryData, isGeneratingPDF: bool): (r: View)
    ensures r.greeting == Greeting(data.travelerName)
    ensures |r.days| == |data.days|
    ensures r.payment.pax == data.totalTravelers
    ensures r.payment.perPerson.Rounded? <==> data.totalTravelers > 0
    ensures r.generateEnabled <==> !isGeneratingPDF
  {
    View(
      greeting := Greeting(data.travelerName),
      destination := data.destination,
      duration := data.duration,
      travelBar := TravelBar(data),
      days := ShowDays(data.days),
      flights := ShowFlights(data.flights),
      hotels := NonEmpty(data.hotels),
      payment := PaymentView(data.totalAmount, data.totalTravelers, data.currency,
                             PerPerson(data.totalAmount, data.totalTravelers), data.tds),
      installments := NonEmpty(data.installments),
      visa := VisaView(data.visaType, DecimalString(data.adults) + " Pax", data.visaProcessingDays),
      generateLabel := if isGeneratingPDF then "Generating PDF..." else "Generate PDF",
      generateEnabled := !isGeneratingPDF)
  }

  /** The four counts in the travel bar are at least two digits and read back as the stored counts. */
  lemma TravelBarCounts(data: ItineraryData)
    ensures |TravelBar(data)| == 6
    ensures forall k :: 2 <= k < 6 ==> |TravelBar(data)[k]| >= 2
    ensures DecimalValue(TravelBar(data)[2]) == data.adults
    ensures DecimalValue(TravelBar(data)[3]) == data.children
    ensures DecimalValue(TravelBar(data)[4]) == data.infants
    ensures DecimalValue(TravelBar(data)[5]) == data.totalTravelers
  {
    var bar := TravelBar(data);
    assert bar[2] == PaddedCount(data.adults) && bar[3] == PaddedCount(data.children);
    assert bar[4] == PaddedCount(data.infants) && bar[5] == PaddedCount(data.totalTravelers);
    PaddedCountValue(data.adults);
    PaddedCountValue(data.children);
    PaddedCountValue(data.infants);
    PaddedCountValue(data.totalTravelers);
  }

  /** The flight, hotel and installment sections appear exactly when their lists are non-empty. */
  lemma SectionsShownIffNonEmpty(data: ItineraryData, busy: bool)
    ensures Render(data, busy).flights.Some? <==> |data.flights| > 0
    ensures Render(data, busy).hotels.Some? <==> |data.hotels| > 0
    ensures Render(data, busy).installments.Some? <==> |data.installments| > 0
    ensures Render(data, busy).flights.Some? ==> |Render(data, busy).flights.value| == |data.flights|
  {
  }

  /** Days in stored order; the image only for a non-empty URL; slots morning, afternoon, evening. */
  lemma DaysInOrder(days: seq<DayData>)
    ensures |ShowDays(days)| == |days|
    ensures forall i :: 0 <= i < |days| ==>
              && ShowDays(days)[i].dayNumber == days[i].dayNumber
              && (ShowDays(days)[i].image.Some? <==> days[i].imageUrl.Some? && days[i].imageUrl.value != "")
              && |ShowDays(days)[i].slots| == 3
              && forall k :: 0 <= k < 3 ==>
                   ShowDays(days)[i].slots[k] == (SlotOrder[k], days[i].Slot(SlotOrder[k]).title, days[i].Slot(SlotOrder[k]).description)
  {
  }

  /** The visa block shows the adults count followed by " Pax". */
  lemma VisaPax(data: ItineraryData, busy: bool)
    ensures var pax := Render(data, busy).visa.paxAdult;
            |pax| > 4 && pax[|pax| - 4..] == " Pax" && DecimalValue(pax[..|pax| - 4]) == data.adults
  {
    var pax := Render(data, busy).visa.paxAdult;
    assert pax[..|pax| - 4] == DecimalString(data.adults);
    DecimalRoundTrip(data.adults);
  }

  /** The generate button is disabled, and relabelled, exactly while a PDF is being generated. */
  lemma GenerateButton(data: ItineraryData, busy: bool)
    ensures Render(data, busy).generateEnabled <==> !busy
    ensures Render(data, busy).generateLabel == (if busy then "Generating PDF..." else "Generate PDF")
  {
  }
}
