# DrFind core, modelled in Dafny

DrFind is a SwiftUI app for finding doctors and hospitals near the user,
booking appointments with them and keeping a profile. This project models
the logic beneath its screens:

- `BookingsStore` (`booking.dfy`, module `Bookings`). It holds an ordered
  list of `Booking` records, newest first. Every change writes the whole
  list through to `UserDefaults` as JSON. On creation the store reads the
  list back, and anything missing or unreadable becomes the empty list.
- `ProfileStore` (`profile.dfy`, module `Profiles`). It holds the user's
  name and contact. Both are read from storage with `""` as the default,
  and both are written back whenever either one is assigned.
- `MapSearchViewModel` (`map_search_view_model.dfy`, module `MapSearch`). It
  covers query composition, searches and their results, the recent-search
  history (move to front, no repeats, at most ten), removing a term from
  the history, the map region, and the route.
- Booking submission:
  - `BookingViewModel.submitBooking` (`booking_view_model.dfy`);
  - the Submit button of `BookingView` (`booking_form.dfy`);
  - `BookingSheet.bookAppointment` (`provider_detail.dfy`).
- Provider classification and filtering:
  - the home screen's filter tabs and type badge (`home.dfy`);
  - the detail screen's type label (`provider_detail.dfy`);
  - the map screen's specialty filter, visibility guards, recent-search
    taps and deletions, and automatic search (`map_search_screen.dfy`).
- `Place` (`place.dfy`). It covers construction from a map item, the
  memberwise initializer, equality by id, and the coordinate's
  `Codable` conformance.

Platform services are modelled as follows:

- `UserDefaults` is a class holding a map from keys to stored values
  (`storage.dfy`). The stores share one instance.
- JSON documents are trees (`foundation.dfy`). Doubles are opaque: the
  model knows a double's value only when it is finite, since the JSON
  encoder throws on NaN and infinity. That gives `persist` a real failure
  path.
- The map-search and directions services are outcome parameters: a list
  of results or routes, or a failure. Each operation that calls a service
  returns the request it would have sent.
- The fresh UUID, the current date and the text rendering of a latitude
  or longitude are also parameters.

## Model

| member | source | states |
|---|---|---|
| Bookings.EncodeBooking | DrFind/DrFind/Models/Booking.swift:9-17 | a booking encodes exactly when its date is finite; the `note` member is present exactly when the note is non-nil |
| Bookings.BookingRoundTrip | DrFind/DrFind/Models/Booking.swift:9-17 | decoding an encoded booking gives the same booking back |
| Bookings.EncodeAll | DrFind/DrFind/Models/Booking.swift:35 | encoding the list succeeds exactly when every booking is encodable, and yields one element per booking |
| Bookings.AllRoundTrip | DrFind/DrFind/Models/Booking.swift:29-37 | decoding the encoded list gives the same bookings in the same order |
| Bookings.DecodeBookings | DrFind/DrFind/Models/Booking.swift:31 | `JSONDecoder().decode([Booking].self, from:)`: nil when the data does not parse or an element is not a booking; its properties are stated by `Bookings.AllRoundTrip`, `Bookings.PersistLoadRoundTrip` and `Bookings.LoadCorrupt` |
| Bookings.EncodeBookings | DrFind/DrFind/Models/Booking.swift:35 | `JSONEncoder().encode(items)` throws exactly when some booking is not encodable |
| Bookings.Load | DrFind/DrFind/Models/Booking.swift:29-32 | `load()` gives [] when no data is stored, [] when the data does not decode, and the decoded list otherwise; it never fails |
| Bookings.Persisted | DrFind/DrFind/Models/Booking.swift:34-37 | `persist()` sets the bookings key only when encoding succeeds and leaves every other key as it was |
| Bookings.PersistLoadRoundTrip | DrFind/DrFind/Models/Booking.swift:29-37 | a store created after a successful persist loads exactly the list written, in order |
| Bookings.FailedPersistKeepsStorage | DrFind/DrFind/Models/Booking.swift:35-36 | when encoding throws, storage is unchanged, so a new store loads the previous list |
| Bookings.LoadCorrupt | DrFind/DrFind/Models/Booking.swift:31 | data under the key that does not parse loads as [] |
| Bookings.FirstIndexWithId | DrFind/DrFind/Models/Booking.swift:49 | the result is the index of the first booking with the id, or nil exactly when no booking has it |
| Bookings.WithoutId | DrFind/DrFind/Models/Booking.swift:48-52 | `remove(id:)` on the list; its properties are stated by `Bookings.WithoutAbsentId`, `Bookings.WithoutFirstWithId` and `Bookings.WithoutIdRemovesAll` |
| Bookings.WithoutAbsentId | DrFind/DrFind/Models/Booking.swift:48-52 | removing an id that no booking carries changes nothing |
| Bookings.WithoutFirstWithId | DrFind/DrFind/Models/Booking.swift:48-52 | only the first booking with the id is removed; the rest keep their order |
| Bookings.WithoutIdRemovesAll | DrFind/DrFind/Models/Booking.swift:48-52 | when ids are unique, no booking with the id remains and the ids stay unique |
| Bookings.BookingsStore.constructor | DrFind/DrFind/Models/Booking.swift:25-27 | the store starts with the loaded list, and storage is not written |
| Bookings.BookingsStore.Persist | DrFind/DrFind/Models/Booking.swift:34-37 | storage becomes `Persisted` of the current list; when every booking is encodable, storage then loads back as the list |
| Bookings.BookingsStore.Add | DrFind/DrFind/Models/Booking.swift:40-42 | the list becomes `[b] + old list` and is written through |
| Bookings.BookingsStore.RemoveAtOffsets | DrFind/DrFind/Models/Booking.swift:44-46 | the bookings at the offsets are dropped, the others keep their order, the length shrinks by the number of offsets, and the list is written through |
| Bookings.BookingsStore.RemoveById | DrFind/DrFind/Models/Booking.swift:48-52 | the first booking with the id is dropped and the list written through; with no such booking, neither the list nor storage changes |
| Support.RemoveOffsetsLength | DrFind/DrFind/Models/Booking.swift:45 | `remove(atOffsets:)` shortens the list by the number of offsets inside it |
| Support.RemoveOffsetsKeeps | DrFind/DrFind/Models/Booking.swift:45 | each element at an offset not named survives, right after the survivors before it |
| Foundation.DateRoundTrip | DrFind/DrFind/Models/Booking.swift:13 | a finite date encodes as a number and decodes back to the same date |
| Profiles.LoadProfile | DrFind/DrFind/Models/Profile.swift:19-22 | each field is the string stored under its key, or "" when that key holds no string |
| Profiles.PersistedProfile | DrFind/DrFind/Models/Profile.swift:24-27 | persisting sets both keys and leaves every other key as it was |
| Profiles.ProfileRoundTrip | DrFind/DrFind/Models/Profile.swift:19-27 | reloading after a persist gives the persisted values, empty strings included |
| Profiles.PersistIdempotent | DrFind/DrFind/Models/Profile.swift:24-27 | persisting the same values twice is the same as persisting them once |
| Profiles.ProfileStore.constructor | DrFind/DrFind/Models/Profile.swift:19-22 | the fields start as loaded, and storage is not written |
| Profiles.ProfileStore.Persist | DrFind/DrFind/Models/Profile.swift:24-27 | storage holds both current fields afterwards |
| Profiles.ProfileStore.SetFullName | DrFind/DrFind/Models/Profile.swift:9-11 | assigning the name leaves the contact alone and writes both fields |
| Profiles.ProfileStore.SetContact | DrFind/DrFind/Models/Profile.swift:12-14 | assigning the contact leaves the name alone and writes both fields |
| Profiles.RelaunchAfterRename | DrFind/DrFind/Models/Profile.swift:19-27 | a store created after a rename reads the new name and the unchanged contact |
| Places.PlacesOf | DrFind/DrFind/ViewModels/MapSearchViewModel.swift:49 | one place per map item, in order, each built by `init(mapItem:)` |
| Places.PlaceOf | DrFind/DrFind/Models/Place.swift:17-31 | `init(mapItem:)`; its properties are stated by `Places.PlaceOfFields`, `Places.PlaceIdEndsWithRawName` and `Places.AddressLineSpec` |
| Places.NewPlace | DrFind/DrFind/Models/Place.swift:33-47 | the memberwise initializer stores every argument unchanged, with optional fields nil by default |
| Places.PlaceOfFields | DrFind/DrFind/Models/Place.swift:17-31 | the name is the item's name or "Unknown"; hours are nil; category, coordinate and phone are copied from the item |
| Places.PlaceIdEndsWithRawName | DrFind/DrFind/Models/Place.swift:20 | the id ends with "\|" and the raw name, which is "" rather than "Unknown" for an unnamed item |
| Places.SameCoordinateAndNameCollide | DrFind/DrFind/Models/Place.swift:20 | two items with the same coordinate and name give equal places |
| Places.SamePlace | DrFind/DrFind/Models/Place.swift:50-53 | `==` on places; its properties are stated by `Places.SamePlaceIsIdEquality` |
| Places.UnnamedCollidesWithEmptyName | DrFind/DrFind/Models/Place.swift:20-21 | an unnamed item equals an item named "" at the same coordinate, although they display different names |
| Places.UnnamedDiffersFromUnknown | DrFind/DrFind/Models/Place.swift:20-21 | an unnamed item and one named "Unknown" display the same name but are different places |
| Places.SamePlaceIsIdEquality | DrFind/DrFind/Models/Place.swift:50-53 | place equality is an equivalence, and holds exactly when the ids are equal |
| Places.JoinContainsParts | DrFind/DrFind/Models/Place.swift:26 | every joined part occurs in the joined text |
| Places.AddressLineSpec | DrFind/DrFind/Models/Place.swift:22-26 | the subtitle is "" with no components, contains every present component, and reads "number, street, locality" when all three are present |
| Places.EncodeCoordinate | DrFind/DrFind/Models/Place.swift:57-61 | a coordinate encodes as the two-element array [latitude, longitude] |
| Places.DecodeCoordinate | DrFind/DrFind/Models/Place.swift:62-67 | decoding needs two leading numbers, read as latitude then longitude |
| Places.CoordinateRoundTrip | DrFind/DrFind/Models/Place.swift:56-68 | decoding an encoded coordinate gives it back |
| Places.CoordinateOrderMatters | DrFind/DrFind/Models/Place.swift:56-68 | a coordinate never decodes with latitude and longitude swapped |
| MapSearch.BaseQuery | DrFind/DrFind/ViewModels/MapSearchViewModel.swift:38 | the base query is "Doctors" when the query text is empty, and the query text otherwise; so it is never empty |
| MapSearch.ComposeQuery | DrFind/DrFind/ViewModels/MapSearchViewModel.swift:38-39 | the composed query starts with the base; it equals the base exactly when the specialty is "All"; otherwise it continues with " " and the specialty |
| MapSearch.RecentFrom | DrFind/DrFind/ViewModels/MapSearchViewModel.swift:24-25 | the history getter reads the string array stored under the history key, and [] when the key is missing or holds another kind of value |
| MapSearch.WithoutFirstSpec | DrFind/DrFind/ViewModels/MapSearchViewModel.swift:59 | only the first occurrence of the term is removed; an absent term changes nothing |
| MapSearch.SavedHistory | DrFind/DrFind/ViewModels/MapSearchViewModel.swift:57-62 | the history after `saveRecentSearch`; its properties are stated by `MapSearch.SavedHistorySpec`, `MapSearch.SavePreservesWellFormed`, `MapSearch.SaveIdempotent` and `MapSearch.SaveOnFullHistory` |
| MapSearch.SavedHistorySpec | DrFind/DrFind/ViewModels/MapSearchViewModel.swift:57-62 | after saving, the term is first, at most ten terms remain, and the others keep their order; a history without repeats keeps the term exactly once |
| MapSearch.SavePreservesWellFormed | DrFind/DrFind/ViewModels/MapSearchViewModel.swift:57-62 | saving keeps a history free of repeats and within ten terms |
| MapSearch.SaveIdempotent | DrFind/DrFind/ViewModels/MapSearchViewModel.swift:57-62 | saving the same term twice in a row is the same as saving it once |
| MapSearch.SaveExistingTermExample | DrFind/DrFind/ViewModels/MapSearchViewModel.swift:59-60 | a term already in the history moves to the front |
| MapSearch.SaveOnFullHistory | DrFind/DrFind/ViewModels/MapSearchViewModel.swift:60-61 | a term not yet in a full history goes in front, followed by the nine newest terms; the oldest is dropped |
| MapSearch.WithoutTerm | DrFind/DrFind/ViewModels/MapSearchViewModel.swift:64-68 | the history after `removeRecentSearch`; its properties are stated by `MapSearch.WithoutTermSpec`, `MapSearch.WithoutTermAppend` and `MapSearch.WithoutTermPreservesWellFormed` |
| MapSearch.WithoutTermSpec | DrFind/DrFind/ViewModels/MapSearchViewModel.swift:64-68 | every occurrence of the term goes, every other term stays in order, and an absent term changes nothing |
| MapSearch.WithoutTermAppend | DrFind/DrFind/ViewModels/MapSearchViewModel.swift:66 | removing a term distributes over concatenation |
| MapSearch.WithoutTermPreservesWellFormed | DrFind/DrFind/ViewModels/MapSearchViewModel.swift:64-68 | removal keeps a history free of repeats and within ten terms |
| MapSearch.MapSearchViewModel.constructor | DrFind/DrFind/ViewModels/MapSearchViewModel.swift:11-21 | query is "", specialty is "All", there are no places, no selection and no route, and the region is 0.05° around (0, 0) |
| MapSearch.MapSearchViewModel.SetRecentSearches | DrFind/DrFind/ViewModels/MapSearchViewModel.swift:25-28 | the setter stores the array under the history key, and the getter then reads it back |
| MapSearch.MapSearchViewModel.SaveRecentSearch | DrFind/DrFind/ViewModels/MapSearchViewModel.swift:57-62 | the stored history becomes `SavedHistory` of the previous one |
| MapSearch.MapSearchViewModel.RemoveRecentSearch | DrFind/DrFind/ViewModels/MapSearchViewModel.swift:64-68 | the stored history becomes `WithoutTerm` of the previous one |
| MapSearch.MapSearchViewModel.SearchNearby | DrFind/DrFind/ViewModels/MapSearchViewModel.swift:35-55 | with no location, nothing changes; otherwise the composed query is sent for a 0.1° region; success replaces the places and saves the query; failure empties the places and leaves the history alone |
| MapSearch.MapSearchViewModel.SearchNearbyAt | DrFind/DrFind/ViewModels/MapSearchViewModel.swift:74-77 | the composed query is sent for a 0.1° region around the coordinate; success replaces the places and saves the composed query to the history; failure empties the places and leaves storage alone |
| MapSearch.MapSearchViewModel.UpdateRegionForUserLocation | DrFind/DrFind/ViewModels/MapSearchViewModel.swift:30-33 | a location recentres the region with a 0.05° span; nil leaves it unchanged |
| MapSearch.MapSearchViewModel.SetRegion | DrFind/DrFind/ViewModels/MapSearchViewModel.swift:70-72 | the region becomes the coordinate and span, 0.05° by default |
| MapSearch.MapSearchViewModel.ClearRoute | DrFind/DrFind/ViewModels/MapSearchViewModel.swift:79 | afterwards there is no route |
| MapSearch.MapSearchViewModel.BuildRoute | DrFind/DrFind/ViewModels/MapSearchViewModel.swift:81-101 | without both ends nothing is requested and the route is unchanged; otherwise a driving route is requested, the first route returned becomes the route, and a failure or an empty answer leaves the route unchanged |
| Home.ProviderType | DrFind/DrFind/Views/HomeView.swift:373-384 | the result is "Hospital" exactly when the hospital test holds, "Doctor" exactly when only the doctor test holds, and "Healthcare" otherwise |
| Home.FilteredProviders | DrFind/DrFind/Views/HomeView.swift:275-294 | the providers under a filter tab; its properties are stated by `Home.FilteredProvidersSpec` and `Home.BadgeAgreesWithTabs` |
| Home.FilteredProvidersSpec | DrFind/DrFind/Views/HomeView.swift:275-294 | no places gives []; a tab other than Doctor or Hospital gives all places; each of the two tabs keeps exactly the places passing its test, each as many times as it occurs, and drops every occurrence of the others; every result keeps the original order |
| Home.BadgeAgreesWithTabs | DrFind/DrFind/Views/HomeView.swift:275-294 | places under the Hospital tab are badged "Hospital"; places under the Doctor tab are badged "Doctor" or "Hospital"; "Healthcare" places appear under neither tab |
| ProviderDetail.DetailTypeHospitalFirst | DrFind/DrFind/Views/ProviderDetailView.swift:122-133 | the detail label is the same code as the card badge (`Home.ProviderType`); it puts Hospital before Doctor, and gives "Healthcare" when neither test holds |
| ProviderDetail.NoteFromField | DrFind/DrFind/Views/ProviderDetailView.swift:209 | the note is nil exactly when the field is empty, and the text otherwise |
| ProviderDetail.BookAppointment | DrFind/DrFind/Views/ProviderDetailView.swift:201-214 | exactly one booking is prepended, with the provider's id and name, the profile's name and contact as stored (no "Me" fallback), and an empty note stored as nil |
| BookingFlow.NewBookingSnapshotsPlace | DrFind/DrFind/ViewModels/BookingViewModel.swift:12-20 | a booking depends only on the place's id and name, so equal places give equal place ids |
| BookingFlow.NewBooking | DrFind/DrFind/ViewModels/BookingViewModel.swift:12-20 | the booking that `submitBooking` creates; its properties are stated by `BookingFlow.NewBookingSnapshotsPlace` and `BookingFlow.BookingViewModel.SubmitBooking` |
| BookingFlow.BookingViewModel.constructor | DrFind/DrFind/ViewModels/BookingViewModel.swift:9 | the date starts at the supplied "now" |
| BookingFlow.BookingViewModel.SubmitBooking | DrFind/DrFind/ViewModels/BookingViewModel.swift:11-22 | exactly one booking goes in front, with the place's id and name, the view model's date, and the name, contact and note exactly as passed |
| BookingForm.SubmittedIdentitySpec | DrFind/DrFind/Views/BookingView.swift:54-55 | booking for myself sends the profile name, or "Me" when it is empty, and the profile contact even when empty; booking for someone else sends the typed name and contact |
| BookingForm.EnabledSubmitHasName | DrFind/DrFind/Views/BookingView.swift:54-59 | while Submit is enabled, the name sent is never empty, and the contact is non-empty when booking for someone else |
| BookingForm.ForMyselfAlwaysEnabled | DrFind/DrFind/Views/BookingView.swift:59 | Submit is never disabled when booking for myself |
| BookingForm.Submit | DrFind/DrFind/Views/BookingView.swift:53-58 | one booking is prepended with the resolved name and contact, and the note as raw text (an empty note is not nil); storage then holds `Persisted` of the new list |
| BookingForm.SubmittedName | DrFind/DrFind/Views/BookingView.swift:54 | the name sent; its properties are stated by `BookingForm.SubmittedIdentitySpec` and `BookingForm.EnabledSubmitHasName` |
| BookingForm.SubmittedContact | DrFind/DrFind/Views/BookingView.swift:55 | the contact sent; its properties are stated by `BookingForm.SubmittedIdentitySpec` and `BookingForm.EnabledSubmitHasName` |
| BookingForm.SubmitDisabled | DrFind/DrFind/Views/BookingView.swift:59 | whether Submit is disabled; its properties are stated by `BookingForm.EnabledSubmitHasName` and `BookingForm.ForMyselfAlwaysEnabled` |
| MapSearchScreen.ResultsFilteredSpec | DrFind/DrFind/Views/MapSearchView.swift:161-167 | "All" keeps every place; otherwise exactly the places whose lower-cased category, name or subtitle contains the lower-cased specialty are kept, each as many times as it occurs, and a nil category never matches; order is kept |
| MapSearchScreen.ResultsFiltered | DrFind/DrFind/Views/MapSearchView.swift:161-167 | the places listed under the specialty chips; its properties are stated by `MapSearchScreen.ResultsFilteredSpec` and `MapSearchScreen.ShownResultsMatchSpecialty` |
| MapSearchScreen.ShownResultsMatchSpecialty | DrFind/DrFind/Views/MapSearchView.swift:24 | whenever the results list is shown, it lists exactly the places matching the specialty by category, name or subtitle, each as many times as it was found, in order |
| MapSearchScreen.BannerWhenNotAuthorized | DrFind/DrFind/Views/MapSearchView.swift:55 | the permission banner is up exactly when authorisation is not determined, restricted or denied |
| MapSearchScreen.RecentListNeedsStoredHistory | DrFind/DrFind/Views/MapSearchView.swift:125 | the recent list shows exactly when the field is focused and storage holds a non-empty string array under the history key |
| MapSearchScreen.AutoSearchGuard | DrFind/DrFind/Views/MapSearchView.swift:72-74 | an automatic search needs when-in-use or always authorisation, so it never runs while the banner is up, nor while results are shown |
| MapSearchScreen.OnLocationUpdate | DrFind/DrFind/Views/MapSearchView.swift:70-76 | the region follows the location; when the auto-search guard fails nothing is requested and places and storage are unchanged; when it holds the composed query is sent for the location, success replaces the places and saves the query to the history, and failure empties the places and leaves storage alone; query, specialty, selection and route never change |
| MapSearchScreen.SelectResult | DrFind/DrFind/Views/MapSearchView.swift:174-178 | tapping a result unfocuses the field, centres the map on the place and searches from its coordinate; success replaces the places and saves the composed query to the history, failure empties the places and leaves storage alone; query, specialty, selection and route never change |
| MapSearchScreen.SelectRecentTerm | DrFind/DrFind/Views/MapSearchView.swift:143-147 | tapping a recent term makes it the query and unfocuses the field; without a location nothing is requested and places and storage are unchanged; otherwise the request carries the term, success replaces the places and saves the composed query to the history, and failure empties the places and leaves storage alone; specialty, region, selection and route never change |
| MapSearchScreen.OnDeleteAsWritten | DrFind/DrFind/Views/MapSearchView.swift:149-154 | the loop as written: the history becomes `DeleteAsWritten`, the loop traps exactly when that lookup goes out of range, and every other storage key is unchanged |
| MapSearchScreen.DeleteAsWritten | DrFind/DrFind/Views/MapSearchView.swift:149-154 | the history the `onDelete` loop as written leaves, or a trap; its properties are stated by `MapSearchScreen.AsWrittenAgreesOnOneRow`, `MapSearchScreen.AsWrittenDeletesWrongTerm` and `MapSearchScreen.AsWrittenTrapsOnLastRows` |
| MapSearchScreen.WithoutNoTerms | DrFind/DrFind/Views/MapSearchView.swift:149-154 | removing no terms leaves the history unchanged |
| MapSearchScreen.WithoutOneMoreTerm | DrFind/DrFind/Views/MapSearchView.swift:152-153 | one more `removeRecentSearch` adds its term to the set of removed terms |
| MapSearchScreen.WithoutTermsAtOffsets | DrFind/DrFind/Views/MapSearchView.swift:149-154 | removing the terms that sit exactly at the given offsets is `remove(atOffsets:)` |
| MapSearchScreen.IntendedDeleteRemovesOffsets | DrFind/DrFind/Views/MapSearchView.swift:149-154 | on a history without repeats, removing the terms at the deleted rows removes exactly those rows |
| MapSearchScreen.OnDelete | DrFind/DrFind/Views/MapSearchView.swift:149-154 | the corrected handler removes the terms shown at the deleted rows, and on a history without repeats it removes exactly those rows; every other storage key is unchanged |
| MapSearchScreen.AsWrittenAgreesOnOneRow | DrFind/DrFind/Views/MapSearchView.swift:149-154 | when one row is deleted, the handler as written does what was intended |
| MapSearchScreen.AsWrittenDeletesWrongTerm | DrFind/DrFind/Views/MapSearchView.swift:149-154 | deleting rows 1 and 2 of [a, b, c, d] leaves [a, c] as written, while [a, d] is intended |
| MapSearchScreen.AsWrittenTrapsOnLastRows | DrFind/DrFind/Views/MapSearchView.swift:149-154 | deleting both rows of [a, b] traps as written |

## Left out

- Async ordering: the interleaving of `async` searches and route requests on the main actor is not modelled. Each call runs to completion with its outcome given, so the race between overlapping searches is not captured.
- Map search and directions: `MKLocalSearch` and `MKDirections` are outcome parameters. Only the fields of a map item that `Place` reads are modelled, and only a route's polyline.
- Floating point: coordinates, spans and regions are opaque values. No arithmetic on them is modelled, and a double is known only to be finite (with its value) or not.
- The text rendering of a latitude or longitude in a place id is the `describe` parameter.
- `lowercased()` is ASCII lower-casing, and `contains` is substring containment on characters. Unicode case mapping and normalisation are not modelled.
- `UserDefaults` is a map from keys to values. Its coercions between kinds (`string(forKey:)` on a number, for example) are not modelled: a value of another kind reads as nil. Its process-wide sharing is a shared object passed to each store.
- JSON is a document tree, not bytes. Bytes that do not parse are a single `Malformed` value. Number formatting and key order are not modelled.
- UUID generation and `Date()` are parameters (`freshId`, `now`). Ids are not proven unique, since the source does not check them.
- Places.NewPlace: the default id of the memberwise initializer (a fresh UUID) is a required argument.
- The `DatePicker` range on the booking sheet (`Date()...`) and the dismissal of sheets and alerts are presentation. They are not modelled.
- `LocationManager.swift` and `MapViewRepresentable.swift` are not part of this model. They are platform delegate and map-view plumbing.
- The layout-only screens are not part of this model: `RootTabView`, `ContentView`, `ProfileView`, `PlaceDetailView`, `BookingsView` and `OnboardingView`.
- Navigation flags (`showDetails`, `showBookingSheet`, `showSuccess` and the like) are not modelled.
- The static `shared` singletons are not modelled as singletons. Each store is created over a storage object, which also models a relaunch.

## Findings

| source | as written | input that shows it | evidently intended | confidence | as-written member | corrected member |
|---|---|---|---|---|---|---|
| DrFind/DrFind/Views/MapSearchView.swift:149-154 | `onDelete` visits the deleted offsets in ascending order and reads each from the history as already shortened by earlier removals | deleting rows 1 and 2 of [a, b, c, d] removes b and d, leaving [a, c]; deleting both rows of [a, b] reads row 1 of the one-term history [b] and traps | remove the terms shown at the deleted rows: [a, d], and [] | not executed | MapSearchScreen.OnDeleteAsWritten (with MapSearchScreen.AsWrittenDeletesWrongTerm, MapSearchScreen.AsWrittenTrapsOnLastRows) | MapSearchScreen.OnDelete (with MapSearchScreen.IntendedDeleteRemovesOffsets) |
