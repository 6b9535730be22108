/**
 * The activity-table editor (itinerary-builder/src/components/ActivitiesForm.tsx).
 * The same field update is used by the day editor for a day's three slots.
 */
module Activities {
  import opened Wrappers
  import opened Types
  import opened Form
  import FieldArray

  datatype ActivityField = Title | Description | City | Kind | TimeRequired

  /** The stored value of a field; title and description are always present. */
  function Get(a: ActivityData, field: ActivityField): Option<string> {
    match field
    case Title => Some(a.title)
    case Description => Some(a.description)
    case City => a.city
    case Kind => a.kind
    case TimeRequired => a.timeRequired
  }

  /** `{ ...activity, [field]: value }`: an optional field becomes present. */
  function WithField(a: ActivityData, field: ActivityField, value: string): (r: ActivityData)
    ensures Get(r, field) == Some(value)
    ensures forall g :: g != field ==> Get(r, g) == Get(a, g)
    ensures r.id == a.id
  {
    match field
    case Title => a.(title := value)
    case Description => a.(description := value)
    case City => a.(city := Some(value))
    case Kind => a.(kind := Some(value))
    case TimeRequired => a.(timeRequired := Some(value))
  }

  /** The record addActivity appends: every field present and empty. */
  function Blank(now: string): (a: ActivityData)
    ensures a.id == now
    ensures forall g :: Get(a, g) == Some("")
  {
    ActivityData(now, "", "", Some(""), Some(""), Some(""))
  }

  /** The choices of the type selector, the first being "Select Type". */
  const TypeOptions: seq<string> := ["", "Sightseeing", "Adventure", "Leisure", "Cultural", "Nature", "Entertainment"]

  method AddActivity(store: FormStore, now: string)
    modifies store
    ensures store.data == old(store.data).(activities := old(store.data.activities) + [Blank(now)])
  {
    store.data := store.data.(activities := store.data.activities + [Blank(now)]);
  }

  method RemoveActivity(store: FormStore, index: int)
    modifies store
    ensures store.data == old(store.data).(activities := FieldArray.RemoveAt(old(store.data.activities), index))
  {
    store.data := store.data.(activities := FieldArray.RemoveAt(store.data.activities, index));
  }

  method UpdateActivity(store: FormStore, index: int, field: ActivityField, value: string)
    requires 0 <= index < |store.data.activities|
    modifies store
    ensures store.data == old(store.data).(activities := old(store.data.activities)[index := WithField(old(store.data.activities[index]), field, value)])
    ensures |store.data.activities| == |old(store.data.activities)|
    ensures Get(store.data.activities[index], field) == Some(value)
    ensures forall g :: g != field ==> Get(store.data.activities[index], g) == Get(old(store.data.activities[index]), g)
    ensures forall j :: 0 <= j < |store.data.activities| && j != index ==> store.data.activities[j] == old(store.data.activities[j])
  {
    var updatedActivities := store.data.activities;
    updatedActivities := updatedActivities[index := WithField(updatedActivities[index], field, value)];
    store.data := store.data.(activities := updatedActivities);
  }

  /** The type selector's change handler: the stored type is always one of the offered choices. */
  method SelectType(store: FormStore, index: int, choice: nat)
    requires 0 <= index < |store.data.activities|
    requires choice < |TypeOptions|
    modifies store
    ensures store.data == old(store.data).(activities := old(store.data.activities)[index := WithField(old(store.data.activities[index]), Kind, TypeOptions[choice])])
    ensures store.data.activities[index].kind == Some(TypeOptions[choice])
    ensures store.data.activities[index].kind.value in TypeOptions
  {
    UpdateActivity(store, index, Kind, TypeOptions[choice]);
  }
}
