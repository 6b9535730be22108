/** The scope-of-service editor (itinerary-builder/src/components/ServicesForm.tsx). */
module Services {
  import opened Types
  import opened Form
  import FieldArray

  datatype ServiceField = Service | Details

  function Get(s: ServiceData, field: ServiceField): string {
    match field
    case Service => s.service
    case Details => s.details
  }

  function WithField(s: ServiceData, field: ServiceField, value: string): (r: ServiceData)
    ensures Get(r, field) == value
    ensures forall g :: g != field ==> Get(r, g) == Get(s, g)
    ensures r.id == s.id
  {
    match field
    case Service => s.(service := value)
    case Details => s.(details := value)
  }

  function Blank(now: string): (s: ServiceData)
    ensures s.id == now
    ensures forall g :: Get(s, g) == ""
  {
    ServiceData(now, "", "")
  }

  method AddService(store: FormStore, now: string)
    modifies store
    ensures store.data == old(store.data).(scopeOfService := old(store.data.scopeOfService) + [Blank(now)])
  {
    store.data := store.data.(scopeOfService := store.data.scopeOfService + [Blank(now)]);
  }

  method RemoveService(store: FormStore, index: int)
    modifies store
    ensures store.data == old(store.data).(scopeOfService := FieldArray.RemoveAt(old(store.data.scopeOfService), index))
  {
    store.data := store.data.(scopeOfService := FieldArray.RemoveAt(store.data.scopeOfService, index));
  }

  method UpdateService(store: FormStore, index: int, field: ServiceField, value: string)
    requires 0 <= index < |store.data.scopeOfService|
    modifies store
    ensures store.data == old(store.data).(scopeOfService := old(store.data.scopeOfService)[index := WithField(old(store.data.scopeOfService[index]), field, value)])
    ensures |store.data.scopeOfService| == |old(store.data.scopeOfService)|
    ensures Get(store.data.scopeOfService[index], field) == value
    ensures forall g :: g != field ==> Get(store.data.scopeOfService[index], g) == Get(old(store.data.scopeOfService[index]), g)
    ensures forall j :: 0 <= j < |store.data.scopeOfService| && j != index ==> store.data.scopeOfService[j] == old(store.data.scopeOfService[j])
  {
    var updatedServices := store.data.scopeOfService;
    updatedServices := updatedServices[index := WithField(updatedServices[index], field, value)];
    store.data := store.data.(scopeOfService := updatedServices);
  }
}
