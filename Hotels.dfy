/**
 * The hotel-bookings editor (itinerary-builder/src/components/HotelsForm.tsx).
 * `new Date(s).getTime()` is the parameter `timeOf`, which maps a date
 * string to milliseconds since the epoch.
 */
module Hotels {
  import opened Types
  import opened Form
  import FieldArray
  import JsMath

  const MsPerDay: nat := 1000 * 60 * 60 * 24

  /** The two date inputs whose change handler recomputes the nights. */
  datatype DateField = CheckIn | CheckOut

  /** calculateNights: whole days between the two dates, rounded up; 0 unless check-out is later. */
  function CalculateNights(checkIn: string, checkOut: string, timeOf: string -> int): (n: nat)
    ensures checkIn == "" || checkOut == "" ==> n == 0
    ensures checkIn != "" && checkOut != "" && timeOf(checkOut) <= timeOf(checkIn) ==> n == 0
    ensures checkIn != "" && checkOut != "" && timeOf(checkOut) > timeOf(checkIn) ==>
              n > 0 && (n - 1) * MsPerDay < timeOf(checkOut) - timeOf(checkIn) <= n * MsPerDay
  {
    if checkIn == "" || checkOut == "" then 0
    else if timeOf(checkOut) <= timeOf(checkIn) then 0
    else JsMath.CeilDiv(timeOf(checkOut) - timeOf(checkIn), MsPerDay)
  }

  /** For dates at midnight of day numbers `a` and `b`, the nights are `b - a` when `b` is later. */
  lemma NightsBetweenMidnights(checkIn: string, checkOut: string, timeOf: string -> int, a: int, b: int)
    requires checkIn != "" && checkOut != ""
    requires timeOf(checkIn) == a * MsPerDay && timeOf(checkOut) == b * MsPerDay
    requires a < b
    ensures CalculateNights(checkIn, checkOut, timeOf) == b - a
  {
    assert timeOf(checkOut) - timeOf(checkIn) == (b - a) * MsPerDay;
    CeilOfMultiple(CalculateNights(checkIn, checkOut, timeOf), b - a, MsPerDay);
  }

  /** The only count `n` of `m`-sized steps with `(n-1)*m < k*m <= n*m` is `k`. */
  lemma CeilOfMultiple(n: int, k: int, m: int)
    requires m > 0
    requires (n - 1) * m < k * m <= n * m
    ensures n == k
  {
  }

  function Date(h: HotelData, field: DateField): string {
    match field
    case CheckIn => h.checkIn
    case CheckOut => h.checkOut
  }

  function Other(field: DateField): (o: DateField)
    ensures o != field
  {
    match field
    case CheckIn => CheckOut
    case CheckOut => CheckIn
  }

  /**
   * The hotel handleDateChange writes back: the edited date replaced, and the
   * nights recomputed only when the other date is non-empty.
   */
  function DateChanged(h: HotelData, field: DateField, value: string, timeOf: string -> int): (r: HotelData)
    ensures Date(r, field) == value && Date(r, Other(field)) == Date(h, Other(field))
    ensures r.id == h.id && r.city == h.city && r.hotelName == h.hotelName
    ensures Date(h, Other(field)) != "" ==> r.nights == CalculateNights(r.checkIn, r.checkOut, timeOf)
    ensures Date(h, Other(field)) == "" ==> r.nights == h.nights
  {
    var updated := match field
      case CheckIn => h.(checkIn := value)
      case CheckOut => h.(checkOut := value);
    if field == CheckIn && h.checkOut != "" then updated.(nights := CalculateNights(value, h.checkOut, timeOf))
    else if field == CheckOut && h.checkIn != "" then updated.(nights := CalculateNights(h.checkIn, value, timeOf))
    else updated
  }

  /** The record addHotel appends. */
  function Blank(now: string): (h: HotelData)
    ensures h.id == now && h.city == "" && h.checkIn == "" && h.checkOut == "" && h.nights == 0 && h.hotelName == ""
  {
    HotelData(now, "", "", "", 0, "")
  }

  method AddHotel(store: FormStore, now: string)
    modifies store
    ensures store.data == old(store.data).(hotels := old(store.data.hotels) + [Blank(now)])
  {
    store.data := store.data.(hotels := store.data.hotels + [Blank(now)]);
  }

  method RemoveHotel(store: FormStore, index: int)
    modifies store
    ensures store.data == old(store.data).(hotels := FieldArray.RemoveAt(old(store.data.hotels), index))
  {
    store.data := store.data.(hotels := FieldArray.RemoveAt(store.data.hotels, index));
  }

  /** The date inputs' change handler; an index with no hotel is ignored. */
  method HandleDateChange(store: FormStore, index: int, field: DateField, value: string, timeOf: string -> int)
    modifies store
    ensures !(0 <= index < |old(store.data.hotels)|) ==> store.data == old(store.data)
    ensures 0 <= index < |old(store.data.hotels)| ==>
              store.data == old(store.data).(hotels := old(store.data.hotels)[index := DateChanged(old(store.data.hotels[index]), field, value, timeOf)])
  {
    if !(0 <= index < |store.data.hotels|) {
      return;
    }
    var currentHotel := store.data.hotels[index];
    var updatedHotel := DateChanged(currentHotel, field, value, timeOf);
    store.data := store.data.(hotels := store.data.hotels[index := updatedHotel]);
  }
}
