/** The important-notes editor (itinerary-builder/src/components/NotesForm.tsx). */
module Notes {
  import opened Types
  import opened Form
  import FieldArray

  datatype NoteField = Point | Details

  function Get(n: NoteData, field: NoteField): string {
    match field
    case Point => n.point
    case Details => n.details
  }

  function WithField(n: NoteData, field: NoteField, value: string): (r: NoteData)
    ensures Get(r, field) == value
    ensures forall g :: g != field ==> Get(r, g) == Get(n, g)
    ensures r.id == n.id
  {
    match field
    case Point => n.(point := value)
    case Details => n.(details := value)
  }

  function Blank(now: string): (n: NoteData)
    ensures n.id == now
    ensures forall g :: Get(n, g) == ""
  {
    NoteData(now, "", "")
  }

  method AddNote(store: FormStore, now: string)
    modifies store
    ensures store.data == old(store.data).(importantNotes := old(store.data.importantNotes) + [Blank(now)])
  {
    store.data := store.data.(importantNotes := store.data.importantNotes + [Blank(now)]);
  }

  method RemoveNote(store: FormStore, index: int)
    modifies store
    ensures store.data == old(store.data).(importantNotes := FieldArray.RemoveAt(old(store.data.importantNotes), index))
  {
    store.data := store.data.(importantNotes := FieldArray.RemoveAt(store.data.importantNotes, index));
  }

  method UpdateNote(store: FormStore, index: int, field: NoteField, value: string)
    requires 0 <= index < |store.data.importantNotes|
    modifies store
    ensures store.data == old(store.data).(importantNotes := old(store.data.importantNotes)[index := WithField(old(store.data.importantNotes[index]), field, value)])
    ensures |store.data.importantNotes| == |old(store.data.importantNotes)|
    ensures Get(store.data.importantNotes[index], field) == value
    ensures forall g :: g != field ==> Get(store.data.importantNotes[index], g) == Get(old(store.data.importantNotes[index]), g)
    ensures forall j :: 0 <= j < |store.data.importantNotes| && j != index ==> store.data.importantNotes[j] == old(store.data.importantNotes[j])
  {
    var updatedNotes := store.data.importantNotes;
    updatedNotes := updatedNotes[index := WithField(updatedNotes[index], field, value)];
    store.data := store.data.(importantNotes := updatedNotes);
  }
}
