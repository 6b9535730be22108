/** The flights editor (itinerary-builder/src/components/FlightsForm.tsx). */
module Flights {
  import opened Types
  import opened Form
  import FieldArray

  /** The fields the editor's inputs write: every field but the id. */
  datatype FlightField = Date | Airline | FlightNumber | From | To | DepartureTime | ArrivalTime

  function Get(f: FlightData, field: FlightField): string {
    match field
    case Date => f.date
    case Airline => f.airline
    case FlightNumber => f.flightNumber
    case From => f.from
    case To => f.to
    case DepartureTime => f.departureTime
    case ArrivalTime => f.arrivalTime
  }

  /** `{ ...flight, [field]: value }` */
  function WithField(f: FlightData, field: FlightField, value: string): (r: FlightData)
    ensures Get(r, field) == value
    ensures forall g :: g != field ==> Get(r, g) == Get(f, g)
    ensures r.id == f.id
  {
    match field
    case Date => f.(date := value)
    case Airline => f.(airline := value)
    case FlightNumber => f.(flightNumber := value)
    case From => f.(from := value)
    case To => f.(to := value)
    case DepartureTime => f.(departureTime := value)
    case ArrivalTime => f.(arrivalTime := value)
  }

  /** The record addFlight appends; `now` is the clock reading that becomes its id. */
  function Blank(now: string): (f: FlightData)
    ensures f.id == now
    ensures forall g :: Get(f, g) == ""
  {
    FlightData(now, "", "", "", "", "", "", "")
  }

  method AddFlight(store: FormStore, now: string)
    modifies store
    ensures store.data == old(store.data).(flights := old(store.data.flights) + [Blank(now)])
  {
    store.data := store.data.(flights := store.data.flights + [Blank(now)]);
  }

  method RemoveFlight(store: FormStore, index: int)
    modifies store
    ensures store.data == old(store.data).(flights := FieldArray.RemoveAt(old(store.data.flights), index))
  {
    store.data := store.data.(flights := FieldArray.RemoveAt(store.data.flights, index));
  }

  /** Copies the list, replaces the flight at `index` by its edited copy and writes the list back. */
  method UpdateFlight(store: FormStore, index: int, field: FlightField, value: string)
    requires 0 <= index < |store.data.flights|
    modifies store
    ensures store.data == old(store.data).(flights := old(store.data.flights)[index := WithField(old(store.data.flights[index]), field, value)])
    ensures |store.data.flights| == |old(store.data.flights)|
    ensures Get(store.data.flights[index], field) == value
    ensures forall g :: g != field ==> Get(store.data.flights[index], g) == Get(old(store.data.flights[index]), g)
    ensures forall j :: 0 <= j < |store.data.flights| && j != index ==> store.data.flights[j] == old(store.data.flights[j])
  {
    var updatedFlights := store.data.flights;
    updatedFlights := updatedFlights[index := WithField(updatedFlights[index], field, value)];
    store.data := store.data.(flights := updatedFlights);
  }
}
