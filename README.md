# Itinerary builder, modelled in Dafny

This project models the itinerary builder, a single-page web application. A
travel agent fills in a ten-step form: basic information, itinerary days,
flights, hotels, payment plan, visa details, important notes, scope of
service, inclusions and activities. The app then shows an on-screen preview
and exports a multi-page A4 PDF.

The model covers:

- **The itinerary record** (`Types`). It holds eight ordered collections and
  the scalar fields. The form starts from fixed default values (`Form`).
- **The form state** (`Form.FormStore`). It is a class with one mutable
  itinerary. Each editor step is a module of methods that reassign it:
  `Flights`, `Notes`, `Services`, `Inclusions`, `Activities`, `Payment`,
  `Days`, `Hotels` and `BasicInfo`. The list deletion they share is
  `FieldArray.RemoveAt`.
- **The wizard** (`Wizard`). Its current step, navigation, progress figure and
  titles.
- **The preview** (`Preview`). What it displays: zero-padded counts, the
  per-person amount, sections shown only for non-empty lists, the days and
  the visa block.
- **The printable document** (`Template`). It is a structured value with its
  fallbacks and sample rows.
- **The export pipeline** (`ImageInliner`, `ImageSubstitution`, `Pagination`,
  `PdfExport`):
  - collect the distinct `http` image sources in first-seen order;
  - resolve each one to image data or to a fixed placeholder;
  - replace each image tag's source by its resolution (the code replaces
    every occurrence of each source in turn, which can corrupt a source;
    see "Findings");
  - rasterise the markup;
  - slice the image into 297 mm pages with the footer on the last page;
  - save under `destination-Itinerary-traveler.pdf`.
- **The application shell** (`App.AppState`). The submitted itinerary, the
  preview flag, and the busy flag that is cleared on success and on failure.

The browser appears only as parameters:

- `PdfExport.Host` turns the document into markup, loads an image, says
  whether `new RegExp` accepts a URL as a pattern, and rasterises markup;
- `timeOf` in `Hotels` maps a date string to epoch milliseconds;
- `now` in the editors is the clock reading that becomes a new record's id
  (four readings, `Days.Readings`, for a new day).

The page-counting loop (pdfGenerator.ts:132-137) gives
`floor(imgHeight / 297) + 1` pages, so an image exactly N pages tall gets a
trailing blank page (`Pagination.PageCount`,
`Pagination.ExactMultipleGetsExtraPage`).

## Model

| member | source | states |
|---|---|---|
| Types.DayData.Slots | itinerary-builder/src/types/index.ts:45-53 | a day has exactly three activity slots, in the order morning, afternoon, evening |
| Form.DefaultValues | itinerary-builder/src/App.tsx:13-38 | the form starts with 2 adults, 0 children and 0 infants, a total of 2 = 2 + 0 + 0, and all eight collections empty |
| Form.FormStore.constructor | itinerary-builder/src/App.tsx:13-38 | the form state starts at the default values |
| FieldArray.RemoveAt | itinerary-builder/src/components/FlightsForm.tsx:34-36 | `remove(i)` deletes exactly the element at i and keeps the others in order, as a multiset minus that element; an index outside the list removes nothing |
| FieldArray.RemoveAppended | itinerary-builder/src/components/FlightsForm.tsx:20-36 | removing the element just appended restores the list |
| FieldArray.RemoveKeepsOrder | itinerary-builder/src/components/NotesForm.tsx:29-31 | after removing index i, the element at each index j is the one from old index j (before i) or j + 1 (from i on), never the removed one, and the old indices of survivors increase with j, so survivors keep their relative order |
| Flights.WithField | itinerary-builder/src/components/FlightsForm.tsx:40 | the edited flight holds the new value in the named field, and every other field and the id are unchanged |
| Flights.Blank | itinerary-builder/src/components/FlightsForm.tsx:21-30 | a new flight has the clock reading as id and all seven fields empty |
| Flights.AddFlight | itinerary-builder/src/components/FlightsForm.tsx:20-32 | appends a blank flight; earlier flights and the rest of the form are unchanged |
| Flights.RemoveFlight | itinerary-builder/src/components/FlightsForm.tsx:34-36 | deletes the flight at the index and nothing else |
| Flights.UpdateFlight | itinerary-builder/src/components/FlightsForm.tsx:38-42 | keeps the length, sets only the named field of the flight at the index, and leaves other flights unchanged |
| Notes.WithField | itinerary-builder/src/components/NotesForm.tsx:35 | the edited note holds the new value in the named field; the other field and the id are unchanged |
| Notes.Blank | itinerary-builder/src/components/NotesForm.tsx:21-25 | a new note has empty point and details |
| Notes.AddNote | itinerary-builder/src/components/NotesForm.tsx:20-27 | appends a blank note; earlier notes are unchanged |
| Notes.RemoveNote | itinerary-builder/src/components/NotesForm.tsx:29-31 | deletes the note at the index and nothing else |
| Notes.UpdateNote | itinerary-builder/src/components/NotesForm.tsx:33-37 | keeps the length, sets only the named field of the note at the index, and leaves other notes unchanged |
| Services.WithField | itinerary-builder/src/components/ServicesForm.tsx:35 | the edited service holds the new value in the named field; the other field and the id are unchanged |
| Services.Blank | itinerary-builder/src/components/ServicesForm.tsx:21-25 | a new service has empty service and details |
| Services.AddService | itinerary-builder/src/components/ServicesForm.tsx:20-27 | appends a blank service; earlier services are unchanged |
| Services.RemoveService | itinerary-builder/src/components/ServicesForm.tsx:29-31 | deletes the service at the index and nothing else |
| Services.UpdateService | itinerary-builder/src/components/ServicesForm.tsx:33-37 | keeps the length, sets only the named field of the service at the index, and leaves other services unchanged |
| Inclusions.WithField | itinerary-builder/src/components/InclusionsForm.tsx:37 | the edited inclusion holds the new value in the named field; the other fields and the id are unchanged |
| Inclusions.Blank | itinerary-builder/src/components/InclusionsForm.tsx:21-27 | a new inclusion has empty category, count, details and status |
| Inclusions.AddInclusion | itinerary-builder/src/components/InclusionsForm.tsx:20-29 | appends a blank inclusion; earlier inclusions are unchanged |
| Inclusions.RemoveInclusion | itinerary-builder/src/components/InclusionsForm.tsx:31-33 | deletes the inclusion at the index and nothing else |
| Inclusions.UpdateInclusion | itinerary-builder/src/components/InclusionsForm.tsx:35-39 | keeps the length, sets only the named field of the inclusion at the index, and leaves other inclusions unchanged |
| Activities.WithField | itinerary-builder/src/components/ActivitiesForm.tsx:38 | the edited activity holds the new value, now present, in the named field; the other fields and the id are unchanged |
| Activities.Blank | itinerary-builder/src/components/ActivitiesForm.tsx:21-28 | a new activity has every field present and empty |
| Activities.AddActivity | itinerary-builder/src/components/ActivitiesForm.tsx:20-30 | appends a blank activity; earlier activities are unchanged |
| Activities.RemoveActivity | itinerary-builder/src/components/ActivitiesForm.tsx:32-34 | deletes the activity at the index and nothing else |
| Activities.UpdateActivity | itinerary-builder/src/components/ActivitiesForm.tsx:36-40 | keeps the length, sets only the named field of the activity at the index, and leaves other activities unchanged |
| Activities.SelectType | itinerary-builder/src/components/ActivitiesForm.tsx:96-108 | the type selector stores one of "", Sightseeing, Adventure, Leisure, Cultural, Nature or Entertainment |
| Payment.WithEdit | itinerary-builder/src/components/PaymentForm.tsx:40 | the edited installment shows the written value in the named field; the other fields and the id are unchanged |
| Payment.Blank | itinerary-builder/src/components/PaymentForm.tsx:24-30 | a new installment has name "", amount 0, due date "" and status Pending |
| Payment.AmountEntry | itinerary-builder/src/components/PaymentForm.tsx:127 | an unparseable amount is stored as 0; a parsed number is stored as it is |
| Payment.AmountEdit | itinerary-builder/src/components/PaymentForm.tsx:127 | the amount input always writes a number to the amount field |
| Payment.Shown | itinerary-builder/src/components/PaymentForm.tsx:19-21 | the values the editor computes and never uses: the total amount, the currency or "INR" when empty, and the TDS or "Not Applicable" when empty; neither fallback is ever empty |
| Payment.AddInstallment | itinerary-builder/src/components/PaymentForm.tsx:23-32 | appends a blank installment; earlier installments are unchanged |
| Payment.RemoveInstallment | itinerary-builder/src/components/PaymentForm.tsx:34-36 | deletes the installment at the index and nothing else |
| Payment.UpdateInstallment | itinerary-builder/src/components/PaymentForm.tsx:38-42 | keeps the length, changes only the named field of the installment at the index, and leaves the others unchanged |
| Days.BlankSlot | itinerary-builder/src/components/DaysForm.tsx:25-39 | a new slot has only an id, an empty title and an empty description |
| Days.NewDay | itinerary-builder/src/components/DaysForm.tsx:21-40 | a new day is numbered one past the current count, with an empty date, no image, its id from the first clock reading, and three empty slots whose ids are the second, third and fourth readings followed by _morning, _afternoon and _evening |
| Days.SlotIdsExtendDayId | itinerary-builder/src/components/DaysForm.tsx:22-36 | a slot id begins with the day id when the clock readings agree, and not when a same-length reading differs |
| Days.WithField | itinerary-builder/src/components/DaysForm.tsx:48-52 | editing the date or the image URL changes only that field of the day |
| Days.WithSlot | itinerary-builder/src/components/DaysForm.tsx:56 | replacing a slot's activity leaves the other two slots and the day's other fields unchanged |
| Days.AddDay | itinerary-builder/src/components/DaysForm.tsx:20-42 | appends the new day numbered by the list length |
| Days.RemoveDay | itinerary-builder/src/components/DaysForm.tsx:44-46 | deletes the day at the index without renumbering the days after it |
| Days.UpdateDay | itinerary-builder/src/components/DaysForm.tsx:48-52 | keeps the length and changes only the day at the index |
| Days.UpdateActivity | itinerary-builder/src/components/DaysForm.tsx:54-58 | changes only the named field of the chosen slot of the chosen day; other slots and other days are unchanged |
| Days.AddKeepsNumbered | itinerary-builder/src/components/DaysForm.tsx:23 | from days numbered 1..n in order, addDay keeps the numbering consecutive |
| Days.RemoveLastKeepsNumbered | itinerary-builder/src/components/DaysForm.tsx:44-46 | removing the last day keeps the numbering consecutive |
| Days.RemoveThenAddDuplicates | itinerary-builder/src/components/DaysForm.tsx:23 | removing any day but the last and then adding one gives two days with the same number |
| Hotels.CalculateNights | itinerary-builder/src/components/HotelsForm.tsx:36-47 | 0 when either date is empty or check-out is not after check-in; otherwise the positive number of started days between them |
| Hotels.NightsBetweenMidnights | itinerary-builder/src/components/HotelsForm.tsx:44-46 | for two dates at midnight, the nights are the difference of their day numbers |
| Hotels.DateChanged | itinerary-builder/src/components/HotelsForm.tsx:53-60 | only the edited date and the nights change; nights are recomputed only when the other date is non-empty, and otherwise keep their old value |
| Hotels.Blank | itinerary-builder/src/components/HotelsForm.tsx:21-28 | a new hotel has empty city, dates and name and 0 nights |
| Hotels.AddHotel | itinerary-builder/src/components/HotelsForm.tsx:20-30 | appends a blank hotel; earlier hotels are unchanged |
| Hotels.RemoveHotel | itinerary-builder/src/components/HotelsForm.tsx:32-34 | deletes the hotel at the index and nothing else |
| Hotels.HandleDateChange | itinerary-builder/src/components/HotelsForm.tsx:49-63 | an index with no hotel changes nothing; otherwise only the hotel at the index is replaced by its date-changed copy |
| BasicInfo.OrZero | itinerary-builder/src/components/BasicInfoForm.tsx:13-15 | a missing count reads as 0 |
| BasicInfo.Total | itinerary-builder/src/components/BasicInfoForm.tsx:18 | the total is at least each count, and is 0 exactly when every count is missing or zero |
| BasicInfo.MissingCountsAsZero | itinerary-builder/src/components/BasicInfoForm.tsx:13-15 | a missing count and a zero count give the same total |
| BasicInfo.DefaultsConsistent | itinerary-builder/src/App.tsx:20-23 | the defaults satisfy total = adults + children + infants |
| BasicInfo.SyncTotal | itinerary-builder/src/components/BasicInfoForm.tsx:17-19 | the effect sets the total to the sum of the counts and changes nothing else |
| BasicInfo.EditCount | itinerary-builder/src/components/BasicInfoForm.tsx:17-19 | after editing one count and the effect it triggers, the total again equals the sum, and the other counts and fields are unchanged |
| BasicInfo.ValidateAdults | itinerary-builder/src/components/BasicInfoForm.tsx:94-97 | adults is valid exactly when present and at least 1, with the source's two messages |
| Wizard.Advance | itinerary-builder/src/components/ItineraryForm.tsx:48-52 | nextStep moves forward by one below step 10 and does nothing at 10 |
| Wizard.Retreat | itinerary-builder/src/components/ItineraryForm.tsx:54-58 | prevStep moves back by one above step 1 and does nothing at 1 |
| Wizard.AdvanceThenRetreat | itinerary-builder/src/components/ItineraryForm.tsx:48-58 | below step 10, next then previous returns to the same step |
| Wizard.RetreatThenAdvance | itinerary-builder/src/components/ItineraryForm.tsx:48-58 | above step 1, previous then next returns to the same step |
| Wizard.Title | itinerary-builder/src/components/ItineraryForm.tsx:35-46 | each step has a non-empty title that no other step shares, from Basic Information at 1 to Activities at 10 |
| Wizard.ProgressPercent | itinerary-builder/src/components/ItineraryForm.tsx:71 | the rounded percentage is exactly ten times the step |
| Wizard.ShowsSubmit | itinerary-builder/src/components/ItineraryForm.tsx:109-124 | the submit button appears exactly at step 10 |
| Wizard.PreviousDisabled | itinerary-builder/src/components/ItineraryForm.tsx:103 | Previous is disabled exactly where it would not move, at step 1 |
| Wizard.RunStaysInRange | itinerary-builder/src/components/ItineraryForm.tsx:32-33 | from a step in 1..10, any sequence of Next and Previous presses stays in 1..10 |
| Wizard.StepState.constructor | itinerary-builder/src/components/ItineraryForm.tsx:32 | the wizard starts at step 1 |
| Wizard.StepState.NextStep | itinerary-builder/src/components/ItineraryForm.tsx:48-52 | the step advances as `Advance` says and stays in 1..10 |
| Wizard.StepState.PrevStep | itinerary-builder/src/components/ItineraryForm.tsx:54-58 | the step goes back as `Retreat` says and stays in 1..10 |
| Wizard.StepState.CurrentTitle | itinerary-builder/src/components/ItineraryForm.tsx:60 | the heading shown is the current step's title, and it identifies the current step: no other step has that title |
| JsMath.RoundHalfUp | itinerary-builder/src/components/PDFPreview.tsx:188 | Math.round returns the integer within half of x, taking the upper one on a tie |
| JsMath.RoundWhole | itinerary-builder/src/components/ItineraryForm.tsx:71 | rounding a whole number returns it |
| JsMath.RoundHalfGoesUp | itinerary-builder/src/components/PDFPreview.tsx:188 | a value exactly halfway rounds up |
| JsMath.CeilDiv | itinerary-builder/src/components/HotelsForm.tsx:45 | Math.ceil(a / b) is the least multiple count of b that reaches a |
| Preview.DigitChar | itinerary-builder/src/components/PDFPreview.tsx:71 | a digit value maps to the character of that digit |
| Preview.DigitValue | itinerary-builder/src/components/PDFPreview.tsx:71 | a digit character maps to its value below ten |
| Preview.DecimalString | itinerary-builder/src/components/PDFPreview.tsx:71 | toString of a count is a non-empty string of digits without leading zeros, and has at least two digits from 10 on |
| Preview.DecimalRoundTrip | itinerary-builder/src/components/PDFPreview.tsx:71 | reading the digits of toString back gives the count |
| Preview.LeadingZero | itinerary-builder/src/components/PDFPreview.tsx:71 | a leading zero does not change the value read |
| Preview.PadStart2 | itinerary-builder/src/components/PDFPreview.tsx:71 | padStart(2, '0') yields max(2, length) characters: the text after that many zeros |
| Preview.PaddedCount | itinerary-builder/src/components/PDFPreview.tsx:71-83 | a shown count has at least two digits, and a count of 10 or more is shown in full |
| Preview.PaddedCountValue | itinerary-builder/src/components/PDFPreview.tsx:71-83 | a padded count still reads as the count |
| Preview.TravelBarCounts | itinerary-builder/src/components/PDFPreview.tsx:59-86 | the adults, children, infants and total cells are two digits or more and read as the stored counts |
| Preview.PerPerson | itinerary-builder/src/components/PDFPreview.tsx:188 | with travelers the per-person figure is a whole number within half of total / travelers; with none it is NaN when the total is 0 and otherwise Infinity of the total's sign |
| Preview.DefaultPerPerson | itinerary-builder/src/components/PDFPreview.tsx:188 | 95000 for 2 travelers is 47500 each |
| Preview.Greeting | itinerary-builder/src/components/PDFPreview.tsx:48 | the heading is the traveler's name between `Hi, ` and `!`, and the name can be read back from it |
| Preview.Render | itinerary-builder/src/components/PDFPreview.tsx:12-260 | the preview greets the traveler by name, shows one day card per day, the stored traveler count and a whole per-person amount exactly when there are travelers, and enables the button exactly when no export is running |
| Preview.NonEmpty | itinerary-builder/src/components/PDFPreview.tsx:153 | a list section is present exactly when its list is non-empty, and then holds the list |
| Preview.SectionsShownIffNonEmpty | itinerary-builder/src/components/PDFPreview.tsx:138-216 | the flight, hotel and installment sections appear exactly when their lists are non-empty |
| Preview.DaysInOrder | itinerary-builder/src/components/PDFPreview.tsx:93-134 | days appear in stored order, with an image only for a non-empty URL, and slots morning, afternoon, evening |
| Preview.VisaPax | itinerary-builder/src/components/PDFPreview.tsx:230 | the visa block shows the adults count followed by " Pax" |
| Preview.GenerateButton | itinerary-builder/src/components/PDFPreview.tsx:32-39 | the generate button is disabled and relabelled exactly while a PDF is being generated |
| Template.OrElse | itinerary-builder/src/utils/pdfGenerator.ts:571-572 | `a \|\| b` on strings gives a unless a is empty |
| Template.ShownImage | itinerary-builder/src/utils/pdfGenerator.ts:615 | a day's image is shown exactly when its URL is present and non-empty |
| Template.ShownTravelers | itinerary-builder/src/utils/pdfGenerator.ts:200 | the travelers shown are the total, or 2 when it is 0, and never 0 |
| Template.Render | itinerary-builder/src/utils/pdfGenerator.ts:197-1009 | the document never shows an empty name, destination or origin; it announces n days and n - 1 nights for n days with one block per day; the flight and hotel tables always have a row; the traveler count shown is positive and the same in the travel row and the payment section |
| Template.HeaderFallbacks | itinerary-builder/src/utils/pdfGenerator.ts:571-599 | an empty name, destination or origin shows as Rahul, Singapore or Mumbai |
| Template.RenderedCounts | itinerary-builder/src/utils/pdfGenerator.ts:198-200 | days shown = number of days, nights = days - 1, travelers = total or 2 |
| Template.DaysInStoredOrder | itinerary-builder/src/utils/pdfGenerator.ts:608-634 | day blocks follow the stored order; each has its image only for a non-empty URL and a morning, afternoon, evening timeline |
| Template.FlightRows | itinerary-builder/src/utils/pdfGenerator.ts:640-667 | one row per flight in order, or exactly four sample rows when there are none |
| Template.HotelRows | itinerary-builder/src/utils/pdfGenerator.ts:684-728 | one row per hotel in order, or exactly five sample rows when there are none |
| Template.IgnoredFields | itinerary-builder/src/utils/pdfGenerator.ts:734-986 | notes, services, inclusions, activities, installments, amount, currency, TDS and visa fields do not affect the document |
| ImageInliner.Resolve | itinerary-builder/src/utils/pdfGenerator.ts:6-41 | a loaded image resolves to its data; load error, timeout and processing error resolve to the placeholder |
| ImageInliner.ResolvedIsDataUrl | itinerary-builder/src/utils/pdfGenerator.ts:44-46 | every outcome resolves to a data URL, so resolving never fails |
| ImageInliner.FindChar | itinerary-builder/src/utils/pdfGenerator.ts:50 | finds the first occurrence of a character at or after a position |
| ImageInliner.FindSrcAttr | itinerary-builder/src/utils/pdfGenerator.ts:50 | finds the first `src="` inside a tag |
| ImageInliner.MatchAt | itinerary-builder/src/utils/pdfGenerator.ts:50 | an image tag's source lies strictly inside the tag, and scanning resumes after it |
| ImageInliner.NextMatch | itinerary-builder/src/utils/pdfGenerator.ts:56 | one `exec` finds a tag at or after the last index and moves forward |
| ImageInliner.FirstHttpOccurrencesMembers | itinerary-builder/src/utils/pdfGenerator.ts:58 | a URL is collected exactly when it is an http source of the markup |
| ImageInliner.FirstHttpOccurrencesMember | itinerary-builder/src/utils/pdfGenerator.ts:58 | the same membership fact, for one URL |
| ImageInliner.FirstHttpOccurrencesDistinct | itinerary-builder/src/utils/pdfGenerator.ts:58 | the collected list has no duplicates |
| ImageInliner.FirstIndex | itinerary-builder/src/utils/pdfGenerator.ts:58 | the index of a URL's first occurrence among the sources |
| ImageInliner.FirstIndexOfPrefix | itinerary-builder/src/utils/pdfGenerator.ts:58 | a first occurrence inside a prefix stays the first occurrence in the whole list |
| ImageInliner.FirstHttpOccurrencesOrder | itinerary-builder/src/utils/pdfGenerator.ts:59 | collected URLs keep the order of their first occurrences |
| ImageInliner.SourcesNonEmpty | itinerary-builder/src/utils/pdfGenerator.ts:50-57 | every source the tag scan yields is non-empty and shorter than the markup, and there are no more sources than characters scanned |
| ImageInliner.CollectedUrls | itinerary-builder/src/utils/pdfGenerator.ts:50-61 | the collected list holds only http sources, exactly the http sources of the markup, without duplicates, in first-occurrence order |
| ImageInliner.CollectStep | itinerary-builder/src/utils/pdfGenerator.ts:56-60 | one turn of the scanning loop keeps the collected list equal to the reference list of the sources seen |
| ImageInliner.DedupStep | itinerary-builder/src/utils/pdfGenerator.ts:58-59 | the includes-check and push extend the reference list by one source |
| ImageInliner.CollectImageUrls | itinerary-builder/src/utils/pdfGenerator.ts:55-61 | the scanning loop returns exactly the reference list of first http occurrences |
| ImageInliner.ReplaceAllLength | itinerary-builder/src/utils/pdfGenerator.ts:80 | replacing every occurrence by a string at least as long never shortens the markup, and by one of equal length keeps its length |
| ImageInliner.ReplaceAllAbsent | itinerary-builder/src/utils/pdfGenerator.ts:80 | replacing a URL that does not occur leaves the markup unchanged |
| ImageInliner.ReplaceAllByItself | itinerary-builder/src/utils/pdfGenerator.ts:80 | replacing a URL by itself leaves the markup unchanged |
| ImageInliner.ProcessImages | itinerary-builder/src/utils/pdfGenerator.ts:49-85 | processImages rejects exactly when some collected URL is not a valid pattern for `new RegExp`; otherwise it replaces each collected URL, in order, by its resolution, and markup with no http image source comes back unchanged |
| ImageSubstitution.MatchAtTag | itinerary-builder/src/utils/pdfGenerator.ts:50 | a tag `<img src="u">` whose source has no quote and no `>` is matched whole, and its source is read back as u |
| ImageSubstitution.TwoTagSources | itinerary-builder/src/utils/pdfGenerator.ts:56-57 | markup of two such tags has exactly their two sources, in order |
| ImageSubstitution.SourcesOfTags | itinerary-builder/src/utils/pdfGenerator.ts:56-57 | markup made of plain tags has exactly their sources, in order |
| ImageSubstitution.ReplaceAllSkip | itinerary-builder/src/utils/pdfGenerator.ts:80 | text without the URL's first character passes through the replace-all unchanged |
| ImageSubstitution.PrefixRewritten | itinerary-builder/src/utils/pdfGenerator.ts:80 | replacing URL u in two tags whose sources are u and u + x turns both tags' fronts into the resolution, leaving the tail x in the second |
| ImageSubstitution.PrefixUrlCorrupted | itinerary-builder/src/utils/pdfGenerator.ts:55-82 | for sources "http://i/a" then "http://i/ab", both are collected, and the replacements leave the second image's source as "data:,b" instead of its own resolution "data:," |
| ImageSubstitution.InlineFromKeeps | itinerary-builder/src/utils/pdfGenerator.ts:77-82 | the positional replacement touches only image sources: when every source is kept, the markup comes back as it was |
| ImageSubstitution.InlineAtTag | itinerary-builder/src/utils/pdfGenerator.ts:50-59 | a tag at the scan position keeps its opening and closing and has only its source rewritten |
| ImageSubstitution.InlineTags | itinerary-builder/src/utils/pdfGenerator.ts:77-82 | on markup of plain tags, every tag's source becomes that source's own rewrite, whatever prefixes the sources share |
| ImageSubstitution.Substituted | itinerary-builder/src/utils/pdfGenerator.ts:77-81 | an http source becomes its resolution; any other source is kept |
| ImageSubstitution.InlinedWithoutHttp | itinerary-builder/src/utils/pdfGenerator.ts:49-85 | markup without an http image source comes back unchanged |
| ImageSubstitution.PositionalInlineExample | itinerary-builder/src/utils/pdfGenerator.ts:77-82 | on the same two images, the positional replacement gives both images "data:," |
| ImageSubstitution.CorrectionDiffers | itinerary-builder/src/utils/pdfGenerator.ts:77-82 | on that input the positional replacement and processImages disagree |
| ImageSubstitution.Resolutions | itinerary-builder/src/utils/pdfGenerator.ts:64-74 | every collected URL has a resolution, and it is that URL's resolved load outcome |
| ImageSubstitution.SourceSeen | itinerary-builder/src/utils/pdfGenerator.ts:56-59 | the tag found by one turn of the loop is the next source, and is among the collected URLs when it starts with http |
| ImageSubstitution.ReplaceStep | itinerary-builder/src/utils/pdfGenerator.ts:56-60 | one turn of the replacing loop extends the output by the text before the tag, the rewritten source and the rest of the tag |
| ImageSubstitution.InlineImages | itinerary-builder/src/utils/pdfGenerator.ts:49-85 | the corrected processImages: collects and resolves the distinct http sources, then writes each tag's own resolution in place of its source |
| Pagination.ImgHeight | itinerary-builder/src/utils/pdfGenerator.ts:128-130 | the scaled height keeps the canvas's aspect ratio at a width of 210 mm |
| Pagination.PageCount | itinerary-builder/src/utils/pdfGenerator.ts:132-137 | there is always at least one page, and for a height h >= 0 the count n is the one with (n - 1) x 297 <= h < n x 297, that is floor(h / 297) + 1 |
| Pagination.Layout | itinerary-builder/src/utils/pdfGenerator.ts:139-162 | one slice per counted page |
| Pagination.MorePagesIff | itinerary-builder/src/utils/pdfGenerator.ts:134-136 | after m pages, another page follows exactly when height - m * 297 is still at least 0 |
| Pagination.PagesCoverImage | itinerary-builder/src/utils/pdfGenerator.ts:132-137 | all pages but the last cover at most the image height, and all pages together cover more |
| Pagination.ExactMultipleGetsExtraPage | itinerary-builder/src/utils/pdfGenerator.ts:132-137 | an image exactly n pages tall gets n + 1 pages |
| Pagination.FooterOnlyOnLastPage | itinerary-builder/src/utils/pdfGenerator.ts:145-159 | the footer is on the last page and on no other |
| Pagination.Paginate | itinerary-builder/src/utils/pdfGenerator.ts:132-162 | the counting loop yields the page count, and the emitting loop yields exactly that many pages, page k offset by -k * 297 |
| PdfExport.FileName | itinerary-builder/src/utils/pdfGenerator.ts:165 | the name is the destination or "Itinerary", then "-Itinerary-", then the traveler or "Traveler", then ".pdf" |
| PdfExport.FileNameDependsOnlyOnNames | itinerary-builder/src/utils/pdfGenerator.ts:165 | only the destination and traveler name affect the file name |
| PdfExport.Inlined | itinerary-builder/src/utils/pdfGenerator.ts:100-101 | the rendered markup with each image source inlined in place; markup without http image sources is rasterised as rendered |
| PdfExport.Outcome | itinerary-builder/src/utils/pdfGenerator.ts:87-170 | a collected image URL that is not a valid pattern fails the export before rasterising, and so does a failed rasterisation; a saved file has the computed name, at least one page, and the footer on its last page only |
| PdfExport.GeneratePdf | itinerary-builder/src/utils/pdfGenerator.ts:87-170 | render, fail on a collected URL that is not a valid pattern, inline images with the corrected inliner, rasterise, paginate and save, with the result described by `Outcome` |
| App.AppState.constructor | itinerary-builder/src/App.tsx:9-11 | no itinerary, no preview, not generating |
| App.AppState.OnSubmit | itinerary-builder/src/App.tsx:40-43 | stores the submitted data and shows the preview |
| App.AppState.HandleGeneratePdf | itinerary-builder/src/App.tsx:45-57 | without data nothing changes; otherwise the file is saved or one alert is shown, the failure is not rethrown, and the busy flag ends lowered |
| App.AppState.HandleBackToForm | itinerary-builder/src/App.tsx:59-61 | hides the preview and keeps the stored data |

## Left out

- Browser image loading and canvas encoding (pdfGenerator.ts:6-41). Only the policy that maps a load outcome to a string is modelled. The loader is the parameter `PdfExport.Host.load`.
- Concurrent resolution with `Promise.allSettled` (pdfGenerator.ts:64-74). It is modelled as a sequential map. Every promise there is fulfilled, so the order of settling does not matter.
- The image-source regular expression (pdfGenerator.ts:50). It is modelled by a tag scanner, `ImageInliner.MatchAt`, that takes a tag's first `src="`. The greedy regular expression would take the last `src="` within the tag. When the first `src="` has an empty value, the scanner drops the whole tag, while the regular expression backtracks to a later one: from `<img data-src="" src="http://x">` the scanner collects nothing and the regular expression collects `http://x`.
- The unescaped `new RegExp(url, 'g')` (pdfGenerator.ts:80). Which URLs it accepts as patterns is the parameter `isPattern` (`PdfExport.Host.isPattern`). A URL it rejects, such as `http://x/a(b.jpg` or `http://x/[1.jpg`, makes the constructor throw; `ImageInliner.ProcessImages` then rejects and `PdfExport.Outcome` is `Failed`. An accepted URL is modelled as a literal replace-all. In the source, `.`, `?`, `+` and similar characters in a URL act as pattern syntax, so a URL with a `?` or `+` may not match itself and stay remote.
- PdfExport.Inlined, PdfExport.GeneratePdf: inline images with the corrected `ImageSubstitution.InlineImages`, not with processImages as written (`ImageInliner.ProcessImages`). Apart from the failure on a URL that is not a valid pattern, which they do reproduce, they reproduce neither of two behaviours of the source. First, a collected URL that is a prefix of another one corrupts the longer one (see "Findings"). Second, the source rewrites a collected URL wherever its text appears in the markup, not only inside image sources: for example in a day's activity title or description that contains the URL, which is interpolated unescaped at pdfGenerator.ts:620-628.
- ImageInliner.ProcessImages: does not claim that no occurrence of a collected URL remains afterwards. That is false in general: a resolution may itself contain a URL, and a later URL may extend an earlier one (see "Findings"). The export uses `ImageSubstitution.InlineImages` instead.
- html2canvas and jsPDF: rasterising the markup, `addImage`, `addPage`, `save`, and drawing the footer text (pdfGenerator.ts:111-124, 143-165, 172-195). A rasterisation is `Host.rasterize`, a page is a `PageSlice` (offset and footer flag), and the saved file is a `PdfFile` value.
- PdfExport.Outcome: a zero-width canvas is treated as a failure. The source's container is 210 mm wide, so this does not arise there.
- The DOM container, its styling and its removal, and the three-second wait (pdfGenerator.ts:88-108, 166-169). These are environment behaviour.
- The CSS and the literal markup text of the document (pdfGenerator.ts:203-566 and the fixed table text). `Template.Render` produces the document's values, not its HTML. User strings are not HTML-escaped in the source; markup injection is not modelled.
- Preview.PerPerson: stops at the number `Math.round` yields (a whole number, Infinity or NaN). The text `toLocaleString` makes of it, such as "∞" or "NaN", is not modelled.
- Floating point. Amounts and the image height are exact reals, so JavaScript rounding error is not modelled. `toLocaleString` thousands separators (PDFPreview.tsx:188, 208) are a locale library call and are left out. `parseFloat` is represented by its result.
- Date parsing with `new Date` (HotelsForm.tsx:38-39) is the parameter `timeOf`. An invalid date, which yields NaN in the source, is not modelled.
- JavaScript coercion of the count inputs. They are registered without `valueAsNumber`, so in the source `adults + children + infants` (BasicInfoForm.tsx:18) can concatenate strings. Counts are natural numbers here.
- React and react-hook-form internals: JSX layout, re-rendering, `watch`, and the text inputs bound with `register` that write a field directly. The hotel's city, nights and name, and the basic-information text fields, are such inputs. So are the total amount, currency and TDS.
- Form validation on submit (`handleSubmit`) is not modelled, apart from the adults rule, `BasicInfo.ValidateAdults`.
- Flights.UpdateFlight, Notes.UpdateNote, Services.UpdateService, Inclusions.UpdateInclusion, Activities.UpdateActivity, Payment.UpdateInstallment, Days.UpdateDay: require an index inside the list. The handlers are only called from rendered rows. An index beyond the list would add a partial record in the source.
- Days.UpdateActivity: requires a day index inside the list. The handler is only called from rendered rows. With an index beyond the list the source reads a slot of `undefined` (DaysForm.tsx:56) and throws a TypeError.
- Days.UpdateActivity: is modelled on values. The source assigns into the day object it shares with the previous list (DaysForm.tsx:56). That aliasing is not modelled.
- `Date.now()` ids are the parameter `now`. They are not guaranteed to be unique, and nothing here depends on that. addDay reads the clock four times; `Days.Readings` keeps the four readings apart, so nothing ties a slot id to the day id unless the readings agree (`Days.SlotIdsExtendDayId`).
- VisaForm.tsx (display only) and tailwind.config.js (styling) are not part of this model.

## Findings

| source | as written | input that shows it | evidently intended | confidence | as-written member | corrected member |
|---|---|---|---|---|---|---|
| itinerary-builder/src/utils/pdfGenerator.ts:77-82 | each collected URL is replaced everywhere in the markup, one URL after the other, so replacing a URL also rewrites the front of every longer URL that starts with it | markup `<img src="http://i/a"><img src="http://i/ab">` with every image loading as `data:,`: the second image's source becomes `data:,b` | every image's source replaced by its own resolution, here `data:,` for both | not executed | ImageSubstitution.PrefixUrlCorrupted | ImageSubstitution.InlineImages |
