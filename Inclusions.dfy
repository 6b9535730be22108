/** The inclusion-summary editor (itinerary-builder/src/components/InclusionsForm.tsx). */
module Inclusions {
  import opened Types
  import opened Form
  import FieldArray

  datatype InclusionField = Category | Count | Details | Status

  function Get(c: InclusionData, field: InclusionField): string {
    match field
    case Category => c.category
    case Count => c.count
    case Details => c.details
    case Status => c.status
  }

  function WithField(c: InclusionData, field: InclusionField, value: string): (r: InclusionData)
    ensures Get(r, field) == value
    ensures forall g :: g != field ==> Get(r, g) == Get(c, g)
    ensures r.id == c.id
  {
    match field
    case Category => c.(category := value)
    case Count => c.(count := value)
    case Details => c.(details := value)
    case Status => c.(status := value)
  }

  function Blank(now: string): (c: InclusionData)
    ensures c.id == now
    ensures forall g :: Get(c, g) == ""
  {
    InclusionData(now, "", "", "", "")
  }

  method AddInclusion(store: FormStore, now: string)
    modifies store
    ensures store.data == old(store.data).(inclusions := old(store.data.inclusions) + [Blank(now)])
  {
    store.data := store.data.(inclusions := store.data.inclusions + [Blank(now)]);
  }

  method RemoveInclusion(store: FormStore, index: int)
    modifies store
    ensures store.data == old(store.data).(inclusions := FieldArray.RemoveAt(old(store.data.inclusions), index))
  {
    store.data := store.data.(inclusions := FieldArray.RemoveAt(store.data.inclusions, index));
  }

  method UpdateInclusion(store: FormStore, index: int, field: InclusionField, value: string)
    requires 0 <= index < |store.data.inclusions|
    modifies store
    ensures store.data == old(store.data).(inclusions := old(store.data.inclusions)[index := WithField(old(store.data.inclusions[index]), field, value)])
    ensures |store.data.inclusions| == |old(store.data.inclusions)|
    ensures Get(store.data.inclusions[index], field) == value
    ensures forall g :: g != field ==> Get(store.data.inclusions[index], g) == Get(old(store.data.inclusions[index]), g)
    ensures forall j :: 0 <= j < |store.data.inclusions| && j != index ==> store.data.inclusions[j] == old(store.data.inclusions[j])
  {
    var updatedInclusions := store.data.inclusions;
    updatedInclusions := updatedInclusions[index := WithField(updatedInclusions[index], field, value)];
    store.data := store.data.(inclusions := updatedInclusions);
  }
}
