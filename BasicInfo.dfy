/**
 * The basic-information step (itinerary-builder/src/components/BasicInfoForm.tsx):
 * the total-travelers effect and the validation rule on the adults count.
 */
module BasicInfo {
  import opened Wrappers
  import opened Types
  import opened Form

  /** `watch(count) || 0`: a missing count counts as zero. */
  function OrZero(entry: Option<nat>): (n: nat)
    ensures entry.Some? ==> n == entry.value
    ensures entry.None? ==> n == 0
  {
    match entry
    case Some(v) => v
    case None => 0
  }

  /** The sum the effect writes and the read-only total input shows. */
  function Total(adults: Option<nat>, children: Option<nat>, infants: Option<nat>): (t: nat)
    ensures t >= OrZero(adults) && t >= OrZero(children) && t >= OrZero(infants)
    ensures t == 0 <==> OrZero(adults) == 0 && OrZero(children) == 0 && OrZero(infants) == 0
  {
    OrZero(adults) + OrZero(children) + OrZero(infants)
  }

  /** A missing count and a zero count give the same total. */
  lemma MissingCountsAsZero(adults: Option<nat>, children: Option<nat>, infants: Option<nat>)
    ensures Total(None, children, infants) == Total(Some(0), children, infants)
    ensures Total(adults, None, infants) == Total(adults, Some(0), infants)
    ensures Total(adults, children, None) == Total(adults, children, Some(0))
  {
  }

  /** The stored total agrees with the three stored counts. */
  predicate Consistent(d: ItineraryData) {
    d.totalTravelers == Total(Some(d.adults), Some(d.children), Some(d.infants))
  }

  /** The form starts consistent: 2 = 2 + 0 + 0. */
  lemma DefaultsConsistent()
    ensures Consistent(DefaultValues())
  {
  }

  /** The count inputs of the step. */
  datatype Count = Adults | Children | Infants

  /** The effect that runs after any count changes: the total becomes the sum of the counts. */
  method SyncTotal(store: FormStore)
    modifies store
    ensures store.data == old(store.data).(totalTravelers := Total(Some(old(store.data.adults)), Some(old(store.data.children)), Some(old(store.data.infants))))
    ensures Consistent(store.data)
  {
    var adults := store.data.adults;
    var children := store.data.children;
    var infants := store.data.infants;
    store.data := store.data.(totalTravelers := Total(Some(adults), Some(children), Some(infants)));
  }

  /** Typing a count, followed by the effect it triggers. */
  method EditCount(store: FormStore, which: Count, value: nat)
    modifies store
    ensures match which
            case Adults => store.data.adults == value && store.data.children == old(store.data.children) && store.data.infants == old(store.data.infants)
            case Children => store.data.children == value && store.data.adults == old(store.data.adults) && store.data.infants == old(store.data.infants)
            case Infants => store.data.infants == value && store.data.adults == old(store.data.adults) && store.data.children == old(store.data.children)
    ensures Consistent(store.data)
    ensures store.data.(adults := old(store.data.adults), children := old(store.data.children),
                        infants := old(store.data.infants), totalTravelers := old(store.data.totalTravelers)) == old(store.data)
  {
    match which {
      case Adults => store.data := store.data.(adults := value);
      case Children => store.data := store.data.(children := value);
      case Infants => store.data := store.data.(infants := value);
    }
    SyncTotal(store);
  }

  /** The adults input's rules: required, and at least 1. `entry` is None for an empty input. */
  function ValidateAdults(entry: Option<nat>): (error: Option<string>)
    ensures error.None? <==> entry.Some? && entry.value >= 1
    ensures entry.None? ==> error == Some("Number of adults is required")
    ensures entry.Some? && entry.value < 1 ==> error == Some("At least 1 adult is required")
  {
    match entry
    case None => Some("Number of adults is required")
    case Some(n) => if n < 1 then Some("At least 1 adult is required") else None
  }
}
