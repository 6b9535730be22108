/** The itinerary-days editor (itinerary-builder/src/components/DaysForm.tsx). */
module Days {
  import opened Wrappers
  import opened Types
  import opened Form
  import FieldArray
  import Activities

  /** The day fields the editor's inputs write through updateDay. */
  datatype DayField = DateField | ImageUrlField

  /** An empty slot as addDay builds it: only id, title and description are set. */
  function BlankSlot(id: string): (a: ActivityData)
    ensures a.id == id && a.title == "" && a.description == ""
    ensures a.city.None? && a.kind.None? && a.timeRequired.None?
  {
    ActivityData(id, "", "", None, None, None)
  }

  /** Does s begin with prefix? */
  predicate StartsWith(s: string, prefix: string) {
    |prefix| <= |s| && s[..|prefix|] == prefix
  }

  /**
   * The four clock readings addDay takes, one per `Date.now()` call: for the
   * day's id and for the morning, afternoon and evening slot ids. They are
   * equal only when the clock did not tick between the calls.
   */
  datatype Readings = Readings(day: string, morning: string, afternoon: string, evening: string)

  /** The day addDay appends to a list of `count` days, with ids from the clock readings `now`. */
  function NewDay(now: Readings, count: nat): (d: DayData)
    ensures d.id == now.day && d.dayNumber == count + 1 && d.date == "" && d.imageUrl.None?
    ensures d.morning.id == now.morning + "_morning"
    ensures d.afternoon.id == now.afternoon + "_afternoon"
    ensures d.evening.id == now.evening + "_evening"
    ensures forall k :: 0 <= k < 3 ==> d.Slots()[k].title == "" && d.Slots()[k].description == ""
  {
    DayData(now.day, count + 1, "", None,
      BlankSlot(now.morning + "_morning"), BlankSlot(now.afternoon + "_afternoon"), BlankSlot(now.evening + "_evening"))
  }

  /**
   * Only when the four readings agree does every slot id extend the day's id;
   * a tick between two calls gives a slot an id with another prefix.
   */
  lemma SlotIdsExtendDayId(now: Readings, count: nat)
    ensures now.morning == now.day ==> StartsWith(NewDay(now, count).morning.id, NewDay(now, count).id)
    ensures |now.morning| == |now.day| && now.morning != now.day ==>
              !StartsWith(NewDay(now, count).morning.id, NewDay(now, count).id)
    ensures now == Readings(now.day, now.day, now.day, now.day) ==>
              forall k :: 0 <= k < 3 ==> StartsWith(NewDay(now, count).Slots()[k].id, NewDay(now, count).id)
  {
    var d := NewDay(now, count);
    if |now.morning| == |now.day| && now.morning != now.day {
      assert d.morning.id[..|d.id|] == now.morning;
    }
  }

  /** `{ ...day, [field]: value }` for the date and image inputs. */
  function WithField(d: DayData, field: DayField, value: string): (r: DayData)
    ensures field == DateField ==> r.date == value && r.imageUrl == d.imageUrl
    ensures field == ImageUrlField ==> r.imageUrl == Some(value) && r.date == d.date
    ensures r.id == d.id && r.dayNumber == d.dayNumber
    ensures forall s :: r.Slot(s) == d.Slot(s)
  {
    match field
    case DateField => d.(date := value)
    case ImageUrlField => d.(imageUrl := Some(value))
  }

  /** The day with one slot's activity replaced. */
  function WithSlot(d: DayData, slot: TimeSlot, a: ActivityData): (r: DayData)
    ensures r.Slot(slot) == a
    ensures forall s :: s != slot ==> r.Slot(s) == d.Slot(s)
    ensures r.id == d.id && r.dayNumber == d.dayNumber && r.date == d.date && r.imageUrl == d.imageUrl
  {
    match slot
    case Morning => d.(morning := a)
    case Afternoon => d.(afternoon := a)
    case Evening => d.(evening := a)
  }

  method AddDay(store: FormStore, now: Readings)
    modifies store
    ensures store.data == old(store.data).(days := old(store.data.days) + [NewDay(now, |old(store.data.days)|)])
  {
    var newDay := NewDay(now, |store.data.days|);
    store.data := store.data.(days := store.data.days + [newDay]);
  }

  /** Removes the day; the days after it keep their numbers. */
  method RemoveDay(store: FormStore, index: int)
    modifies store
    ensures store.data == old(store.data).(days := FieldArray.RemoveAt(old(store.data.days), index))
    ensures 0 <= index < |old(store.data.days)| ==>
              forall j :: index <= j < |store.data.days| ==> store.data.days[j].dayNumber == old(store.data.days[j + 1].dayNumber)
  {
    store.data := store.data.(days := FieldArray.RemoveAt(store.data.days, index));
  }

  method UpdateDay(store: FormStore, index: int, field: DayField, value: string)
    requires 0 <= index < |store.data.days|
    modifies store
    ensures store.data == old(store.data).(days := old(store.data.days)[index := WithField(old(store.data.days[index]), field, value)])
    ensures |store.data.days| == |old(store.data.days)|
    ensures forall j :: 0 <= j < |store.data.days| && j != index ==> store.data.days[j] == old(store.data.days[j])
  {
    var updatedDays := store.data.days;
    updatedDays := updatedDays[index := WithField(updatedDays[index], field, value)];
    store.data := store.data.(days := updatedDays);
  }

  /** Edits one field of one slot of one day; the other slots and the other days are untouched. */
  method UpdateActivity(store: FormStore, dayIndex: int, slot: TimeSlot, field: Activities.ActivityField, value: string)
    requires 0 <= dayIndex < |store.data.days|
    modifies store
    ensures store.data == old(store.data).(days := old(store.data.days)[dayIndex :=
              WithSlot(old(store.data.days[dayIndex]), slot, Activities.WithField(old(store.data.days[dayIndex]).Slot(slot), field, value))])
    ensures |store.data.days| == |old(store.data.days)|
    ensures Activities.Get(store.data.days[dayIndex].Slot(slot), field) == Some(value)
    ensures forall g :: g != field ==> Activities.Get(store.data.days[dayIndex].Slot(slot), g) == Activities.Get(old(store.data.days[dayIndex]).Slot(slot), g)
    ensures forall s :: s != slot ==> store.data.days[dayIndex].Slot(s) == old(store.data.days[dayIndex]).Slot(s)
    ensures forall j :: 0 <= j < |store.data.days| && j != dayIndex ==> store.data.days[j] == old(store.data.days[j])
  {
    var updatedDays := store.data.days;
    var day := updatedDays[dayIndex];
    updatedDays := updatedDays[dayIndex := WithSlot(day, slot, Activities.WithField(day.Slot(slot), field, value))];
    store.data := store.data.(days := updatedDays);
  }

  /** Days numbered 1, 2, 3, ... in list order, as a run of addDay calls leaves them. */
  predicate Numbered(days: seq<DayData>) {
    forall j :: 0 <= j < |days| ==> days[j].dayNumber == j + 1
  }

  /** addDay keeps consecutive numbering. */
  lemma AddKeepsNumbered(days: seq<DayData>, now: Readings)
    requires Numbered(days)
    ensures Numbered(days + [NewDay(now, |days|)])
  {
  }

  /** Removing the last day keeps consecutive numbering. */
  lemma RemoveLastKeepsNumbered(days: seq<DayData>)
    requires Numbered(days) && |days| > 0
    ensures Numbered(FieldArray.RemoveAt(days, |days| - 1))
  {
  }

  /**
   * Numbering by list length rather than by the largest number: after removing
   * any day but the last from a consecutively numbered list, the next addDay
   * gives the new day the number the old last day still carries. The model
   * keeps this behaviour as the source has it: a day number is a display
   * label, and days are told apart by their ids.
   */
  lemma RemoveThenAddDuplicates(days: seq<DayData>, index: int, now: Readings)
    requires Numbered(days)
    requires 0 <= index < |days| - 1
    ensures var after := FieldArray.RemoveAt(days, index) + [NewDay(now, |days| - 1)];
            |after| == |days| && after[|days| - 2].dayNumber == after[|days| - 1].dayNumber == |days|
  {
    var removed := FieldArray.RemoveAt(days, index);
    assert removed[|days| - 2] == days[|days| - 1];
  }
}
