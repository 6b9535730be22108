/**
 * The itinerary record the form collects and the document is rendered from
 * (itinerary-builder/src/types/index.ts). Identifiers are plain strings used
 * only for list identity; counts are natural numbers; amounts are exact reals.
 */
module Types {
  import opened Wrappers

  /** One activity: the three slots of a day and the rows of the activity table. */
  datatype ActivityData = ActivityData(
    id: string,
    title: string,
    description: string,
    city: Option<string>,
    kind: Option<string>,          // `type` in the source
    timeRequired: Option<string>)

  /** The three fixed slots of a day, in display order. */
  datatype TimeSlot = Morning | Afternoon | Evening

  datatype DayData = DayData(
    id: string,
    dayNumber: int,
    date: string,
    imageUrl: Option<string>,
    morning: ActivityData,
    afternoon: ActivityData,
    evening: ActivityData)
  {
    /** The activity in one of the three slots. */
    function Slot(slot: TimeSlot): ActivityData {
      match slot
      case Morning => morning
      case Afternoon => afternoon
      case Evening => evening
    }

    /** The three activities in the order morning, afternoon, evening. */
    function Slots(): (r: seq<ActivityData>)
      ensures |r| == 3
      ensures forall k :: 0 <= k < 3 ==> r[k] == Slot(SlotOrder[k])
    {
      [morning, afternoon, evening]
    }
  }

  const SlotOrder: seq<TimeSlot> := [Morning, Afternoon, Evening]

  datatype FlightData = FlightData(
    id: string,
    date: string,
    airline: string,
    flightNumber: string,
    from: string,
    to: string,
    departureTime: string,
    arrivalTime: string)

  datatype HotelData = HotelData(
    id: string,
    city: string,
    checkIn: string,
    checkOut: string,
    nights: int,
    hotelName: string)

  /** The status of an installment: the source's `'Paid' | 'Pending'` union. */
  datatype InstallmentStatus = Paid | Pending

  datatype InstallmentData = InstallmentData(
    id: string,
    name: string,
    amount: real,
    dueDate: string,
    status: InstallmentStatus)

  datatype NoteData = NoteData(id: string, point: string, details: string)

  datatype ServiceData = ServiceData(id: string, service: string, details: string)

  datatype InclusionData = InclusionData(
    id: string,
    category: string,
    count: string,
    details: string,
    status: string)

  datatype ItineraryData = ItineraryData(
    // basic information
    travelerName: string,
    destination: string,
    duration: string,
    departureFrom: string,
    departureTo: string,
    adults: nat,
    children: nat,
    infants: nat,
    totalTravelers: nat,
    // the eight ordered collections
    days: seq<DayData>,
    flights: seq<FlightData>,
    hotels: seq<HotelData>,
    installments: seq<InstallmentData>,
    importantNotes: seq<NoteData>,
    scopeOfService: seq<ServiceData>,
    inclusions: seq<InclusionData>,
    activities: seq<ActivityData>,
    // payment plan and visa scalars
    totalAmount: real,
    currency: string,
    tds: string,
    visaType: string,
    visaProcessingDays: string)
}
